// The index logic of the mesh builder, io_scene_psk_psa/psk/builder.py:
// which mesh objects and materials go into a PSK, the material table, the
// material index of each slot, and, object by object, the points, the
// de-duplicated wedges, the faces and the weights `build_psk` appends to
// the `Psk` lists.
module PskBuilder {
  import opened Wrappers
  import opened Bytes
  import opened SharedData
  import opened PskData
  import opened Seqs
  import opened Text
  import PsxBones
  import PolyFlags
  import opened BoneSelection
  import PsxBoneList
  import PskImporter
  import Dfs

  // ---------------------------------------------------------------------
  // Input objects
  // ---------------------------------------------------------------------

  /**
   * `_get_psk_input_objects`: the mesh objects in the order given; a
   * RuntimeError when there are none.
   */
  function PskInputMeshObjects<O>(meshObjects: seq<O>): (r: Result<seq<O>>)
    ensures r.Err? <==> |meshObjects| == 0
    ensures r.Err? ==> r.error == RuntimeError(NO_MESH_SELECTED)
    ensures r.Ok? ==> r.value == meshObjects
  {
    if |meshObjects| == 0 then Err(RuntimeError(NO_MESH_SELECTED)) else Ok(meshObjects)
  }

  const MESH := "MESH"

  /** A yielded object whose object is a mesh. */
  predicate IsMeshObject(s: Dfs.Scene, d: Dfs.DfsObject)
  {
    d.obj < |s.objects| && s.objects[d.obj].objectType == MESH
  }

  /** A yielded mesh object that is selected, through its innermost instancing object when it has one. */
  predicate IsSelectedMesh(s: Dfs.Scene, d: Dfs.DfsObject)
  {
    && IsMeshObject(s, d)
    && (forall j :: 0 <= j < |d.instanceObjects| ==> d.instanceObjects[j] < |s.objects|)
    && Dfs.IsSelected(s, d)
  }

  /**
   * `get_mesh_objects_for_collection`: the mesh objects of the collection's
   * depth-first walk, in walk order, no two with the same object and
   * innermost instancer.
   */
  function MeshObjectsForCollection(s: Dfs.Scene, c: nat): (r: seq<Dfs.DfsObject>)
    requires Dfs.Valid(s) && c < |s.collections|
    ensures forall d :: d in r <==> d in Dfs.CollectionDfs(s, c) && IsMeshObject(s, d)
    ensures DistinctBy(r, Dfs.PairOf)
    ensures InOrderOf(r, Dfs.CollectionDfs(s, c))
  {
    var all := Dfs.CollectionDfs(s, c);
    Dfs.CollectionDfsOnce(s, c);
    FilterMembers(all, d => IsMeshObject(s, d), true);
    FilterDistinctBy(all, d => IsMeshObject(s, d), true, Dfs.PairOf);
    DistinctByDistinct(all, Dfs.PairOf);
    FilterKeepsOrder(all, d => IsMeshObject(s, d), true);
    Filter(all, d => IsMeshObject(s, d), true)
  }

  /**
   * `get_mesh_objects_for_context`: nothing without a view layer; otherwise
   * the selected mesh objects of the view layer's walk, in walk order, no
   * two with the same object and innermost instancer.
   */
  function MeshObjectsForContext(s: Dfs.Scene, viewLayer: Option<nat>): (r: seq<Dfs.DfsObject>)
    requires Dfs.Valid(s) && (viewLayer.Some? ==> viewLayer.value < |s.collections|)
    ensures viewLayer.None? ==> r == []
    ensures viewLayer.Some? ==> forall d :: d in r <==> d in Dfs.ViewLayerDfs(s, viewLayer.value) && IsSelectedMesh(s, d)
    ensures DistinctBy(r, Dfs.PairOf)
    ensures viewLayer.Some? ==> InOrderOf(r, Dfs.ViewLayerDfs(s, viewLayer.value))
  {
    match viewLayer
    case None => []
    case Some(root) =>
      var all := Dfs.ViewLayerDfs(s, root);
      Dfs.ViewLayerDfsOnce(s, root);
      FilterMembers(all, d => IsSelectedMesh(s, d), true);
      FilterDistinctBy(all, d => IsSelectedMesh(s, d), true, Dfs.PairOf);
      DistinctByDistinct(all, Dfs.PairOf);
      FilterKeepsOrder(all, d => IsSelectedMesh(s, d), true);
      Filter(all, d => IsSelectedMesh(s, d), true)
  }

  /**
   * `get_psk_input_objects_for_context`: the selected mesh objects of the
   * view layer's walk, or a RuntimeError when there is none.
   */
  function PskInputObjectsForContext(s: Dfs.Scene, viewLayer: Option<nat>): (r: Result<seq<Dfs.DfsObject>>)
    requires Dfs.Valid(s) && (viewLayer.Some? ==> viewLayer.value < |s.collections|)
    ensures r.Err? <==> viewLayer.None? || forall d :: d in Dfs.ViewLayerDfs(s, viewLayer.value) ==> !IsSelectedMesh(s, d)
    ensures r.Err? ==> r.error == RuntimeError(NO_MESH_SELECTED)
    ensures r.Ok? ==> r.value == MeshObjectsForContext(s, viewLayer) && DistinctBy(r.value, Dfs.PairOf)
  {
    var meshes := MeshObjectsForContext(s, viewLayer);
    assert meshes != [] ==> meshes[0] in meshes;
    PskInputMeshObjects(meshes)
  }

  /**
   * `get_psk_input_objects_for_collection`: the mesh objects of the
   * collection's walk, or a RuntimeError when there is none.
   */
  function PskInputObjectsForCollection(s: Dfs.Scene, c: nat): (r: Result<seq<Dfs.DfsObject>>)
    requires Dfs.Valid(s) && c < |s.collections|
    ensures r.Err? <==> forall d :: d in Dfs.CollectionDfs(s, c) ==> !IsMeshObject(s, d)
    ensures r.Err? ==> r.error == RuntimeError(NO_MESH_SELECTED)
    ensures r.Ok? ==> r.value == MeshObjectsForCollection(s, c) && DistinctBy(r.value, Dfs.PairOf)
  {
    var meshes := MeshObjectsForCollection(s, c);
    assert meshes != [] ==> meshes[0] in meshes;
    PskInputMeshObjects(meshes)
  }

  // ---------------------------------------------------------------------
  // Materials
  // ---------------------------------------------------------------------

  const NO_MESH_SELECTED := "At least one mesh must be selected"

  /** A mesh object's name and the material of each of its slots, None for an empty slot. */
  datatype SlotList<M> = SlotList(objectName: string, slots: seq<Option<M>>)

  function EmptySlotError(objectName: string, i: nat): Error
  {
    RuntimeError(EMPTY_SLOT_TEXT + objectName + ", index " + DecimalString(i) + ")")
  }

  const EMPTY_SLOT_TEXT := "Material slots cannot be empty. ("

  /** The materials of one object's slots in order, or the error of its first empty slot. */
  function ObjectSlotMaterials<M>(objectName: string, slots: seq<Option<M>>): (r: Result<seq<M>>)
    ensures r.Err? <==> exists i :: 0 <= i < |slots| && slots[i].None?
    ensures r.Ok? ==> |r.value| == |slots| && forall i :: 0 <= i < |slots| ==> slots[i] == Some(r.value[i])
  {
    if slots == [] then Ok([])
    else
      var n := |slots| - 1;
      var front := ObjectSlotMaterials(objectName, slots[..n]);
      assert forall i :: 0 <= i < n ==> slots[..n][i] == slots[i];
      if front.Err? then front
      else if slots[n].None? then Err(EmptySlotError(objectName, n))
      else Ok(front.value + [slots[n].value])
  }

  /** The materials of every slot of every object, in order, or the error of the first empty slot. */
  function AllSlotMaterials<M>(objects: seq<SlotList<M>>): (r: Result<seq<M>>)
    ensures r.Err? <==> exists k :: 0 <= k < |objects| && ObjectSlotMaterials(objects[k].objectName, objects[k].slots).Err?
  {
    if objects == [] then Ok([])
    else
      var n := |objects| - 1;
      var front := AllSlotMaterials(objects[..n]);
      assert forall k :: 0 <= k < n ==> objects[..n][k] == objects[k];
      if front.Err? then front
      else match ObjectSlotMaterials(objects[n].objectName, objects[n].slots)
        case Err(e) => Err(e)
        case Ok(ms) => Ok(front.value + ms)
  }

  /** What `list(get_materials_for_mesh_objects(...))` yields: each slot material once, first-seen first. */
  function MaterialsForMeshObjects<M(==)>(objects: seq<SlotList<M>>): Result<seq<M>>
  {
    match AllSlotMaterials(objects)
    case Err(e) => Err(e)
    case Ok(all) => Ok(Dedup(all))
  }

  /**
   * `get_materials_for_mesh_objects`, consumed to the end: walks the slots
   * of every object, raising at an empty slot and yielding each material
   * the first time it is seen.
   */
  method GetMaterialsForMeshObjects<M(==)>(objects: seq<SlotList<M>>) returns (r: Result<seq<M>>)
    ensures r == MaterialsForMeshObjects(objects)
  {
    var yielded: set<M> := {};
    var materials: seq<M> := [];
    ghost var all: seq<M> := [];
    for k := 0 to |objects|
      invariant AllSlotMaterials(objects[..k]) == Ok(all)
      invariant materials == Dedup(all)
      invariant forall x :: x in yielded <==> x in materials
    {
      var slots := objects[k].slots;
      ghost var objectMaterials: seq<M> := [];
      assert all + objectMaterials == all;
      for i := 0 to |slots|
        invariant ObjectSlotMaterials(objects[k].objectName, slots[..i]) == Ok(objectMaterials)
        invariant materials == Dedup(all + objectMaterials)
        invariant forall x :: x in yielded <==> x in materials
      {
        if slots[i].None? {
          EmptySlotStops(objects, k, i, all, objectMaterials);
          return Err(EmptySlotError(objects[k].objectName, i));
        }
        var material := slots[i].value;
        SlotStep(objects[k].objectName, slots, i, all, objectMaterials);
        if material !in yielded {
          yielded := yielded + {material};
          materials := materials + [material];
        }
        objectMaterials := objectMaterials + [material];
      }
      ObjectStep(objects, k, all, objectMaterials);
      all := all + objectMaterials;
    }
    assert objects[..|objects|] == objects;
    return Ok(materials);
  }

  lemma SlotStep<M>(objectName: string, slots: seq<Option<M>>, i: nat, all: seq<M>, objectMaterials: seq<M>)
    requires i < |slots| && slots[i].Some?
    requires ObjectSlotMaterials(objectName, slots[..i]) == Ok(objectMaterials)
    ensures ObjectSlotMaterials(objectName, slots[..i + 1]) == Ok(objectMaterials + [slots[i].value])
    ensures Dedup(all + (objectMaterials + [slots[i].value]))
      == if slots[i].value in Dedup(all + objectMaterials) then Dedup(all + objectMaterials)
         else Dedup(all + objectMaterials) + [slots[i].value]
  {
    assert slots[..i + 1][..i] == slots[..i];
    DedupSnoc(all + objectMaterials, slots[i].value);
    assert all + objectMaterials + [slots[i].value] == all + (objectMaterials + [slots[i].value]);
  }

  lemma ObjectStep<M>(objects: seq<SlotList<M>>, k: nat, all: seq<M>, objectMaterials: seq<M>)
    requires k < |objects| && AllSlotMaterials(objects[..k]) == Ok(all)
    requires ObjectSlotMaterials(objects[k].objectName, objects[k].slots[..|objects[k].slots|]) == Ok(objectMaterials)
    ensures AllSlotMaterials(objects[..k + 1]) == Ok(all + objectMaterials)
  {
    assert objects[k].slots[..|objects[k].slots|] == objects[k].slots;
    assert objects[..k + 1][..k] == objects[..k];
  }

  /** The first empty slot met is the error of the whole walk. */
  lemma EmptySlotStops<M>(objects: seq<SlotList<M>>, k: nat, i: nat, all: seq<M>, objectMaterials: seq<M>)
    requires k < |objects| && i < |objects[k].slots| && objects[k].slots[i].None?
    requires AllSlotMaterials(objects[..k]) == Ok(all)
    requires ObjectSlotMaterials(objects[k].objectName, objects[k].slots[..i]) == Ok(objectMaterials)
    ensures AllSlotMaterials(objects) == Err(EmptySlotError(objects[k].objectName, i))
  {
    var slots := objects[k].slots;
    assert slots[..i + 1][..i] == slots[..i];
    assert ObjectSlotMaterials(objects[k].objectName, slots[..i + 1]) == Err(EmptySlotError(objects[k].objectName, i));
    ObjectSlotMaterialsPrefixErr(objects[k].objectName, slots, i + 1);
    assert objects[..k + 1][..k] == objects[..k];
    assert AllSlotMaterials(objects[..k + 1]) == Err(EmptySlotError(objects[k].objectName, i));
    AllSlotMaterialsStopsAtFailure(objects, k + 1);
  }

  lemma {:induction false} ObjectSlotMaterialsPrefixErr<M>(objectName: string, slots: seq<Option<M>>, i: nat)
    requires i <= |slots| && ObjectSlotMaterials(objectName, slots[..i]).Err?
    ensures ObjectSlotMaterials(objectName, slots) == ObjectSlotMaterials(objectName, slots[..i])
    decreases |slots| - i
  {
    if i < |slots| {
      assert slots[..i + 1][..i] == slots[..i];
      ObjectSlotMaterialsPrefixErr(objectName, slots, i + 1);
    } else {
      assert slots[..i] == slots;
    }
  }

  lemma {:induction false} AllSlotMaterialsStopsAtFailure<M>(objects: seq<SlotList<M>>, k: nat)
    requires k <= |objects| && AllSlotMaterials(objects[..k]).Err?
    ensures AllSlotMaterials(objects) == AllSlotMaterials(objects[..k])
    decreases |objects| - k
  {
    if k < |objects| {
      assert objects[..k + 1][..k] == objects[..k];
      AllSlotMaterialsStopsAtFailure(objects, k + 1);
    } else {
      assert objects[..k] == objects;
    }
  }

  /**
   * The yielded materials: each material of some slot exactly once, in the
   * order in which the slots first show them.
   */
  lemma MaterialsForMeshObjectsMeaning<M>(objects: seq<SlotList<M>>)
    requires MaterialsForMeshObjects(objects).Ok?
    ensures var all := AllSlotMaterials(objects).value; var ms := MaterialsForMeshObjects(objects).value;
      && Distinct(ms)
      && (forall x :: x in ms <==> x in all)
      && (forall i, j :: 0 <= i < j < |ms| ==> IndexOf(all, ms[i]) < IndexOf(all, ms[j]))
  {
    var all := AllSlotMaterials(objects).value;
    DedupDistinct(all);
    DedupMembers(all);
    DedupFirstOccurrence(all);
  }

  /** A Blender material as the builder reads it: its name and its PSK triangle settings. */
  datatype BlenderMaterial = BlenderMaterial(name: string, meshTriangleType: string, meshTriangleBitFlags: set<string>)

  /**
   * The materials to export: the slot materials in first-seen order for
   * 'AUTOMATIC', the named materials (None where no material has the name)
   * for 'MANUAL', and an AssertionError for any other mode.
   */
  function MaterialsToExport(materialOrderMode: string, objects: seq<SlotList<BlenderMaterial>>,
                             materialNameList: seq<string>, blendMaterials: map<string, BlenderMaterial>)
    : (r: Result<seq<Option<BlenderMaterial>>>)
    ensures materialOrderMode == "MANUAL" ==>
      (r.Ok? && |r.value| == |materialNameList|
       && forall i :: 0 <= i < |materialNameList| ==> (r.value[i].Some? <==> materialNameList[i] in blendMaterials))
    ensures materialOrderMode == "AUTOMATIC" ==> (r.Ok? <==> MaterialsForMeshObjects(objects).Ok?)
    ensures materialOrderMode != "AUTOMATIC" && materialOrderMode != "MANUAL" ==> r == Err(AssertionError)
  {
    match materialOrderMode
    case "AUTOMATIC" =>
      (match MaterialsForMeshObjects(objects)
       case Err(e) => Err(e)
       case Ok(ms) => Ok(Map(ms, (m: BlenderMaterial) => Some(m))))
    case "MANUAL" =>
      Ok(seq(|materialNameList|, i requires 0 <= i < |materialNameList| =>
        if materialNameList[i] in blendMaterials then Some(blendMaterials[materialNameList[i]]) else None))
    case _ => Err(AssertionError)
  }

  /** The name a material goes by in the table: its own, or 'None' when it is missing. */
  function MaterialName(m: Option<BlenderMaterial>): string
  {
    if m.Some? then m.value.name else "None"
  }

  /**
   * One `Psk.Material` record: the name (encoded, and refused when it does
   * not fit), the texture index, and the poly flags of the material's
   * triangle settings (0 for a missing material).
   */
  function MaterialRecord(m: Option<BlenderMaterial>, textureIndex: int): (r: Result<Material>)
    ensures r.Ok? <==> PsxBones.NameFits(MaterialName(m))
    ensures r.Ok? ==> CharArrayValue(r.value.name) == CharArrayValue(PsxBones.EncodeName(MaterialName(m)).value)
    ensures r.Ok? ==> r.value.textureIndex == I32.Wrap(textureIndex)
    ensures r.Ok? ==> r.value.polyFlags == if m.Some? then PolyFlags.PolyFlagsOf(m.value.meshTriangleType, m.value.meshTriangleBitFlags) else 0
  {
    match PsxBones.EncodeName(MaterialName(m))
    case Err(e) => Err(e)
    case Ok(bytes) =>
      var name: CharArray64 := CharArray(bytes, 64);
      CharArrayValueOfName(bytes);
      var polyFlags := if m.Some? then PolyFlags.PolyFlagsOf(m.value.meshTriangleType, m.value.meshTriangleBitFlags) else 0;
      Ok(Material(name, I32.Wrap(textureIndex), polyFlags, 0, 0, 0, 0))
  }

  lemma CharArrayValueOfName(bytes: seq<Byte>)
    requires |bytes| <= 64
    ensures CharArrayValue(CharArray(bytes, 64)) == CharArrayValue(bytes)
  {
    var a := CharArray(bytes, 64);
    var v := CharArrayValue(bytes);
    assert v <= a;
    CharArrayValueOfPrefix(v, a);
  }

  /**
   * The material table: one record per material, its texture index its
   * position; a single default 'None' record when there would be none.
   */
  function MaterialTable(materials: seq<Option<BlenderMaterial>>): (r: Result<seq<Material>>)
  {
    if materials == [] then
      (match MaterialRecord(None, 0) case Err(e) => Err(e) case Ok(m) => Ok([m]))
    else MaterialRecords(materials)
  }

  function MaterialRecords(materials: seq<Option<BlenderMaterial>>): (r: Result<seq<Material>>)
    ensures r.Err? <==> exists i :: 0 <= i < |materials| && MaterialRecord(materials[i], i).Err?
    ensures r.Ok? ==> |r.value| == |materials| && forall i :: 0 <= i < |materials| ==> MaterialRecord(materials[i], i) == Ok(r.value[i])
  {
    var f := (m: Option<BlenderMaterial>, i: nat) => MaterialRecord(m, i);
    assert forall i :: 0 <= i < |materials| ==> f(materials[i], i) == MaterialRecord(materials[i], i);
    MapIndexed(materials, f)
  }

  /** f applied to each element and its position, stopping at the first error. */
  function MapIndexed<A, B>(xs: seq<A>, f: (A, nat) -> Result<B>): (r: Result<seq<B>>)
    ensures r.Err? <==> exists i :: 0 <= i < |xs| && f(xs[i], i).Err?
    ensures r.Ok? ==> |r.value| == |xs| && forall i :: 0 <= i < |xs| ==> f(xs[i], i) == Ok(r.value[i])
  {
    if xs == [] then Ok([])
    else
      var n := |xs| - 1;
      assert forall i :: 0 <= i < n ==> xs[..n][i] == xs[i];
      match MapIndexed(xs[..n], f)
      case Err(e) => Err(e)
      case Ok(front) =>
        match f(xs[n], n)
        case Err(e) => Err(e)
        case Ok(m) => Ok(front + [m])
  }

  /** The material loop of `build_psk`, then the default material when the table is empty. */
  method BuildMaterials(psk: Psk<real>, materials: seq<Option<BlenderMaterial>>) returns (r: Result<()>)
    modifies psk`materials
    requires psk.materials == []
    ensures r.Ok? <==> MaterialTable(materials).Ok?
    ensures r.Ok? ==> psk.materials == MaterialTable(materials).value
  {
    for i := 0 to |materials|
      invariant MaterialRecords(materials[..i]) == Ok(psk.materials)
    {
      assert materials[..i + 1][..i] == materials[..i];
      var record := MaterialRecord(materials[i], |psk.materials|);
      if record.Err? {
        return Err(record.error);
      }
      psk.materials := psk.materials + [record.value];
    }
    assert materials[..|materials|] == materials;
    if |psk.materials| == 0 {
      var record := MaterialRecord(None, 0);
      if record.Err? {
        return Err(record.error);
      }
      psk.materials := psk.materials + [record.value];
    }
    return Ok(());
  }

  /**
   * What the table holds: one record per material, named after it ('None'
   * when missing), with its position as texture index; or exactly one
   * record named 'None' when there are no materials.
   */
  lemma {:induction false} MaterialTableMeaning(materials: seq<Option<BlenderMaterial>>)
    requires MaterialTable(materials).Ok?
    ensures var table := MaterialTable(materials).value;
      && |table| == (if materials == [] then 1 else |materials|)
      && (materials == [] ==> CharArrayValue(table[0].name) == PsxBones.EncodeName("None").value)
      && forall i :: 0 <= i < |materials| ==>
           table[i].textureIndex == I32.Wrap(i)
           && PsxBones.NameFits(MaterialName(materials[i]))
           && CharArrayValue(table[i].name) == CharArrayValue(PsxBones.EncodeName(MaterialName(materials[i])).value)
  {
    if materials != [] {
      MaterialRecordsMeaning(materials);
    } else {
      assert PsxBones.EncodeName("None").Ok?;
      var b := PsxBones.EncodeName("None").value;
      assert CharArrayValue(b) == b by {
        assert 0 !in b;
        CharArrayValueOfPrefix(b, b);
      }
    }
  }

  lemma MaterialRecordsMeaning(materials: seq<Option<BlenderMaterial>>)
    requires MaterialRecords(materials).Ok?
    ensures var table := MaterialRecords(materials).value;
      forall i :: 0 <= i < |materials| ==>
        table[i].textureIndex == I32.Wrap(i)
        && PsxBones.NameFits(MaterialName(materials[i]))
        && CharArrayValue(table[i].name) == CharArrayValue(PsxBones.EncodeName(MaterialName(materials[i])).value)
  {
    forall i | 0 <= i < |materials|
      ensures MaterialRecords(materials).value[i].textureIndex == I32.Wrap(i)
      ensures PsxBones.NameFits(MaterialName(materials[i]))
      ensures CharArrayValue(MaterialRecords(materials).value[i].name)
           == CharArrayValue(PsxBones.EncodeName(MaterialName(materials[i])).value)
    {
      assert MaterialRecord(materials[i], i) == Ok(MaterialRecords(materials).value[i]);
    }
  }

  /** `material_names`: each material's name, 'None' for a missing one. */
  function MaterialNames(materials: seq<Option<BlenderMaterial>>): (r: seq<string>)
    ensures |r| == |materials| && forall i :: 0 <= i < |materials| ==> r[i] == MaterialName(materials[i])
  {
    Map(materials, MaterialName)
  }

  /**
   * `_get_material_name_indices`: each slot's material's position in the
   * name list (the first with that name), 0 when the slot is empty or the
   * name is not in the list.
   */
  function MaterialNameIndices(slotMaterialNames: seq<Option<string>>, materialNames: seq<string>): (r: seq<nat>)
    ensures |r| == |slotMaterialNames|
    ensures forall i :: 0 <= i < |r| ==>
      if slotMaterialNames[i].Some? && slotMaterialNames[i].value in materialNames then
        r[i] < |materialNames| && materialNames[r[i]] == slotMaterialNames[i].value
        && slotMaterialNames[i].value !in materialNames[..r[i]]
      else r[i] == 0
  {
    seq(|slotMaterialNames|, i requires 0 <= i < |slotMaterialNames| =>
      if slotMaterialNames[i].Some? && slotMaterialNames[i].value in materialNames then IndexOf(materialNames, slotMaterialNames[i].value) else 0)
  }

  /** The material indices of an object's slots; [0] for an object without slots. */
  function ObjectMaterialIndices(slotMaterialNames: seq<Option<string>>, materialNames: seq<string>): (r: seq<nat>)
    ensures |r| == if slotMaterialNames == [] then 1 else |slotMaterialNames|
    ensures slotMaterialNames == [] ==> r == [0]
    ensures slotMaterialNames != [] ==> r == MaterialNameIndices(slotMaterialNames, materialNames)
  {
    if slotMaterialNames == [] then [0] else MaterialNameIndices(slotMaterialNames, materialNames)
  }

  /**
   * With a table built from the same materials, every slot index names a
   * record of the table.
   */
  lemma SlotIndicesInTable(slotMaterialNames: seq<Option<string>>, materials: seq<Option<BlenderMaterial>>)
    requires MaterialTable(materials).Ok?
    ensures var table := MaterialTable(materials).value;
      forall i :: 0 <= i < |ObjectMaterialIndices(slotMaterialNames, MaterialNames(materials))| ==>
        ObjectMaterialIndices(slotMaterialNames, MaterialNames(materials))[i] < |table|
  {
    MaterialTableMeaning(materials);
  }

  // ---------------------------------------------------------------------
  // Wedges
  // ---------------------------------------------------------------------

  /** A mesh loop as the builder reads it: its vertex and its split normal. */
  datatype MeshLoop<N> = MeshLoop(vertexIndex: nat, normal: N)

  type Triple = s: seq<nat> | |s| == 3 witness [0, 0, 0]

  /** A loop triangle: its three loops, its material slot and the polygon it comes from. */
  datatype LoopTriangle = LoopTriangle(loops: Triple, materialIndex: nat, polygonIndex: nat)

  /** Every loop of every triangle is a loop of the mesh. */
  predicate TrianglesWithin(triangles: seq<LoopTriangle>, loopCount: nat)
  {
    forall t :: 0 <= t < |triangles| ==> forall j :: 0 <= j < 3 ==> triangles[t].loops[j] < loopCount
  }

  /** Every triangle's material slot has a material index. */
  predicate SlotsWithin(triangles: seq<LoopTriangle>, materialIndices: seq<nat>)
  {
    forall t :: 0 <= t < |triangles| ==> triangles[t].materialIndex < |materialIndices|
  }

  /**
   * The wedge each loop starts with: its vertex shifted by the points of
   * the objects before it, u and 1 - v of the active UV layer (0 and 0
   * without one), and material index 0.
   */
  function LoopWedge<N>(loop: MeshLoop<N>, uv: Option<(F32, F32)>, vertexOffset: nat, oneMinus: F32 -> F32): Wedge
  {
    if uv.Some? then Wedge(loop.vertexIndex + vertexOffset, uv.value.0, oneMinus(uv.value.1), 0)
    else Wedge(loop.vertexIndex + vertexOffset, FLOAT_ZERO, FLOAT_ZERO, 0)
  }

  function UvOf(uvs: Option<seq<(F32, F32)>>, l: nat): Option<(F32, F32)>
  {
    if uvs.Some? && l < |uvs.value| then Some(uvs.value[l]) else None
  }

  /** A UV layer, when there is one, has a UV per loop. */
  predicate UvLayerFits<N>(loops: seq<MeshLoop<N>>, uvs: Option<seq<(F32, F32)>>)
  {
    uvs.Some? ==> |uvs.value| == |loops|
  }

  /** The wedge of loop l after the material assignment: the material of the last triangle holding it. */
  function AssignedWedge(w: Wedge, materialIndex: nat): Wedge
  {
    w.(materialIndex := materialIndex)
  }

  /** The material index of the triangle t. */
  function TriangleMaterial(t: LoopTriangle, materialIndices: seq<nat>): nat
    requires t.materialIndex < |materialIndices|
  {
    materialIndices[t.materialIndex]
  }

  /**
   * The material index the wedge of each loop is left with: each triangle in
   * turn sets it on its three loops; an IndexError for a triangle whose
   * material slot has no material index.
   */
  function LoopMaterials(loopCount: nat, triangles: seq<LoopTriangle>, materialIndices: seq<nat>): (r: Result<seq<nat>>)
    requires TrianglesWithin(triangles, loopCount)
    ensures r.Err? <==> !SlotsWithin(triangles, materialIndices)
    ensures r.Err? ==> r.error == IndexError
    ensures r.Ok? ==> |r.value| == loopCount
  {
    if triangles == [] then Ok(seq(loopCount, _ => 0))
    else
      var n := |triangles| - 1;
      var t := triangles[n];
      assert forall k :: 0 <= k < n ==> triangles[..n][k] == triangles[k];
      match LoopMaterials(loopCount, triangles[..n], materialIndices)
      case Err(e) => Err(e)
      case Ok(front) =>
        if t.materialIndex >= |materialIndices| then Err(IndexError)
        else
          var m := materialIndices[t.materialIndex];
          Ok(front[t.loops[0] := m][t.loops[1] := m][t.loops[2] := m])
  }

  /** The position of the last triangle holding loop l. */
  function LastTriangleWith(triangles: seq<LoopTriangle>, l: nat): (r: Option<nat>)
    ensures r.Some? ==>
      (r.value < |triangles| && l in triangles[r.value].loops
       && forall t :: r.value < t < |triangles| ==> l !in triangles[t].loops)
    ensures r.None? ==> forall t :: 0 <= t < |triangles| ==> l !in triangles[t].loops
  {
    if triangles == [] then None
    else if l in triangles[|triangles| - 1].loops then Some(|triangles| - 1)
    else LastTriangleWith(triangles[..|triangles| - 1], l)
  }

  /**
   * Each loop's material index is that of the last triangle holding the
   * loop, or 0 when no triangle holds it.
   */
  lemma {:induction false} LoopMaterialsMeaning(loopCount: nat, triangles: seq<LoopTriangle>, materialIndices: seq<nat>)
    requires TrianglesWithin(triangles, loopCount) && SlotsWithin(triangles, materialIndices)
    ensures var r := LoopMaterials(loopCount, triangles, materialIndices).value;
      forall l :: 0 <= l < loopCount ==>
        r[l] == match LastTriangleWith(triangles, l)
                case None => 0
                case Some(t) => TriangleMaterial(triangles[t], materialIndices)
  {
    if triangles != [] {
      var n := |triangles| - 1;
      assert forall k :: 0 <= k < n ==> triangles[..n][k] == triangles[k];
      LoopMaterialsMeaning(loopCount, triangles[..n], materialIndices);
    }
  }

  /** The wedges of the loops before de-duplication. */
  function LoopWedges<N>(loops: seq<MeshLoop<N>>, uvs: Option<seq<(F32, F32)>>, vertexOffset: nat,
                         oneMinus: F32 -> F32, materials: seq<nat>): (r: seq<Wedge>)
    requires |materials| == |loops|
    ensures |r| == |loops|
    ensures forall l :: 0 <= l < |loops| ==>
      r[l].pointIndex == loops[l].vertexIndex + vertexOffset && r[l].materialIndex == materials[l]
  {
    seq(|loops|, l requires 0 <= l < |loops| => AssignedWedge(LoopWedge(loops[l], UvOf(uvs, l), vertexOffset, oneMinus), materials[l]))
  }

  /**
   * The two wedge loops of `build_psk` for one object: one wedge per loop,
   * then each triangle's material index set on the wedges of its loops.
   */
  method ObjectLoopWedges<N>(loops: seq<MeshLoop<N>>, uvs: Option<seq<(F32, F32)>>, vertexOffset: nat, oneMinus: F32 -> F32,
                             triangles: seq<LoopTriangle>, materialIndices: seq<nat>) returns (r: Result<seq<Wedge>>)
    requires TrianglesWithin(triangles, |loops|)
    ensures r.Err? <==> LoopMaterials(|loops|, triangles, materialIndices).Err?
    ensures r.Err? ==> r.error == IndexError
    ensures r.Ok? ==> r.value == LoopWedges(loops, uvs, vertexOffset, oneMinus, LoopMaterials(|loops|, triangles, materialIndices).value)
  {
    var wedges: seq<Wedge> := [];
    for l := 0 to |loops|
      invariant |wedges| == l
      invariant forall k :: 0 <= k < l ==> wedges[k] == LoopWedge(loops[k], UvOf(uvs, k), vertexOffset, oneMinus)
    {
      wedges := wedges + [LoopWedge(loops[l], UvOf(uvs, l), vertexOffset, oneMinus)];
    }
    ghost var materials: seq<nat> := seq(|loops|, _ => 0);
    assert wedges == LoopWedges(loops, uvs, vertexOffset, oneMinus, materials);
    for t := 0 to |triangles|
      invariant LoopMaterials(|loops|, triangles[..t], materialIndices) == Ok(materials)
      invariant wedges == LoopWedges(loops, uvs, vertexOffset, oneMinus, materials)
    {
      assert triangles[..t + 1][..t] == triangles[..t];
      assert triangles[..t + 1][t] == triangles[t];
      var triangle := triangles[t];
      if triangle.materialIndex >= |materialIndices| {
        assert !SlotsWithin(triangles, materialIndices);
        return Err(IndexError);
      }
      var m := materialIndices[triangle.materialIndex];
      ghost var front := materials;
      for j := 0 to 3
        invariant |materials| == |loops|
        invariant wedges == LoopWedges(loops, uvs, vertexOffset, oneMinus, materials)
        invariant materials == PartlyAssigned(LoopMaterials(|loops|, triangles[..t], materialIndices).value, triangle.loops, m, j)
      {
        var l := triangle.loops[j];
        wedges := wedges[l := AssignedWedge(wedges[l], m)];
        materials := materials[l := m];
      }
      AllAssigned(front, triangle.loops, m);
    }
    assert triangles[..|triangles|] == triangles;
    return Ok(wedges);
  }

  lemma AllAssigned(materials: seq<nat>, loops: Triple, m: nat)
    requires forall k :: 0 <= k < 3 ==> loops[k] < |materials|
    ensures PartlyAssigned(materials, loops, m, 3) == materials[loops[0] := m][loops[1] := m][loops[2] := m]
  {
    assert PartlyAssigned(materials, loops, m, 1) == materials[loops[0] := m];
    assert PartlyAssigned(materials, loops, m, 2) == materials[loops[0] := m][loops[1] := m];
  }

  /** The first j assignments of m to the loops of a triangle. */
  function PartlyAssigned(materials: seq<nat>, loops: Triple, m: nat, j: nat): (r: seq<nat>)
    requires j <= 3 && forall k :: 0 <= k < 3 ==> loops[k] < |materials|
    ensures |r| == |materials|
  {
    if j == 0 then materials else PartlyAssigned(materials, loops, m, j - 1)[loops[j - 1] := m]
  }

  /**
   * The de-duplication loop: each loop's wedge is appended to `psk.wedges`
   * the first time it is seen, and every loop is given the index of its
   * wedge there. The dictionary is keyed by the wedge's key, which tells
   * wedges apart exactly when they differ.
   */
  /** A built wedge as an element of `Psk.wedges`. */
  function Built(w: Wedge): WedgeEntry
  {
    BuiltWedge(w)
  }

  method AppendUniqueWedges<W>(psk: Psk<W>, wedges: seq<Wedge>) returns (loopWedgeIndices: seq<nat>)
    modifies psk`wedges
    ensures psk.wedges == old(psk.wedges) + Map(Dedup(wedges), Built)
    ensures |loopWedgeIndices| == |wedges|
    ensures forall l :: 0 <= l < |wedges| ==>
      wedges[l] in Dedup(wedges) && loopWedgeIndices[l] == |old(psk.wedges)| + IndexOf(Dedup(wedges), wedges[l])
  {
    var unique, indices := UniqueWedges(wedges, |psk.wedges|);
    psk.wedges := psk.wedges + Map(unique, Built);
    loopWedgeIndices := indices;
  }

  method UniqueWedges(wedges: seq<Wedge>, base: nat) returns (unique: seq<Wedge>, loopWedgeIndices: seq<nat>)
    ensures unique == Dedup(wedges)
    ensures |loopWedgeIndices| == |wedges|
    ensures forall l :: 0 <= l < |wedges| ==>
      wedges[l] in unique && loopWedgeIndices[l] == base + IndexOf(unique, wedges[l])
  {
    unique := [];
    var wedgeIndices: map<(int, F32, F32, int), nat> := map[];
    loopWedgeIndices := [];
    for l := 0 to |wedges|
      invariant unique == Dedup(wedges[..l])
      invariant DedupState(wedges[..l], unique, wedgeIndices, loopWedgeIndices, base)
    {
      var key := WedgeKey(wedges[l]);
      ghost var unique0, wedgeIndices0, loopWedgeIndices0 := unique, wedgeIndices, loopWedgeIndices;
      if key in wedgeIndices {
        loopWedgeIndices := loopWedgeIndices + [wedgeIndices[key]];
        SeenWedgeStep(wedges, l, unique, wedgeIndices, loopWedgeIndices0, loopWedgeIndices, base);
      } else {
        var wedgeIndex := base + |unique|;
        wedgeIndices := wedgeIndices[key := wedgeIndex];
        unique := unique + [wedges[l]];
        loopWedgeIndices := loopWedgeIndices + [wedgeIndex];
        NewWedgeStep(wedges, l, unique0, wedgeIndices0, loopWedgeIndices0, unique, wedgeIndices, loopWedgeIndices, base);
      }
    }
    DedupDone(wedges, unique, wedgeIndices, loopWedgeIndices, base);
  }

  lemma DedupStep<T>(s: seq<T>, l: nat)
    requires l < |s|
    ensures Dedup(s[..l + 1]) == if s[l] in Dedup(s[..l]) then Dedup(s[..l]) else Dedup(s[..l]) + [s[l]]
  {
    assert s[..l + 1] == s[..l] + [s[l]];
    DedupSnoc(s[..l], s[l]);
  }

  /**
   * The state of the de-duplication after the loops `done`: the dictionary
   * maps the key of the i-th unique wedge to base + i and holds no other
   * key, and each loop has the index of its own wedge.
   */
  ghost predicate DedupState(done: seq<Wedge>, unique: seq<Wedge>, wedgeIndices: map<(int, F32, F32, int), nat>,
                             loopWedgeIndices: seq<nat>, base: nat)
  {
    && (forall i :: 0 <= i < |unique| ==> WedgeKey(unique[i]) in wedgeIndices && wedgeIndices[WedgeKey(unique[i])] == base + i)
    && (forall w :: WedgeKey(w) in wedgeIndices ==> w in unique)
    && |loopWedgeIndices| == |done|
    && (forall k :: 0 <= k < |done| ==> base <= loopWedgeIndices[k] < base + |unique| && unique[loopWedgeIndices[k] - base] == done[k])
  }

  lemma SeenWedgeStep(wedges: seq<Wedge>, l: nat, unique: seq<Wedge>, wedgeIndices: map<(int, F32, F32, int), nat>,
                      loopWedgeIndices: seq<nat>, loopWedgeIndices': seq<nat>, base: nat)
    requires l < |wedges| && unique == Dedup(wedges[..l]) && DedupState(wedges[..l], unique, wedgeIndices, loopWedgeIndices, base)
    requires WedgeKey(wedges[l]) in wedgeIndices
    requires loopWedgeIndices' == loopWedgeIndices + [wedgeIndices[WedgeKey(wedges[l])]]
    ensures unique == Dedup(wedges[..l + 1])
    ensures DedupState(wedges[..l + 1], unique, wedgeIndices, loopWedgeIndices', base)
  {
    var w := wedges[l];
    assert w in unique;
    var j :| 0 <= j < |unique| && unique[j] == w;
    assert wedgeIndices[WedgeKey(w)] == base + j;
    DedupStep(wedges, l);
    var done, done' := wedges[..l], wedges[..l + 1];
    assert forall k :: 0 <= k < l ==> done'[k] == done[k];
  }

  lemma NewWedgeStep(wedges: seq<Wedge>, l: nat, unique: seq<Wedge>, wedgeIndices: map<(int, F32, F32, int), nat>,
                     loopWedgeIndices: seq<nat>, unique': seq<Wedge>, wedgeIndices': map<(int, F32, F32, int), nat>,
                     loopWedgeIndices': seq<nat>, base: nat)
    requires l < |wedges| && unique == Dedup(wedges[..l]) && DedupState(wedges[..l], unique, wedgeIndices, loopWedgeIndices, base)
    requires WedgeKey(wedges[l]) !in wedgeIndices
    requires unique' == unique + [wedges[l]] && wedgeIndices' == wedgeIndices[WedgeKey(wedges[l]) := base + |unique|]
    requires loopWedgeIndices' == loopWedgeIndices + [base + |unique|]
    ensures unique' == Dedup(wedges[..l + 1])
    ensures DedupState(wedges[..l + 1], unique', wedgeIndices', loopWedgeIndices', base)
  {
    var w := wedges[l];
    assert w !in unique;
    DedupStep(wedges, l);
    forall i | 0 <= i < |unique'|
      ensures WedgeKey(unique'[i]) in wedgeIndices' && wedgeIndices'[WedgeKey(unique'[i])] == base + i
    {
      if i < |unique| {
        WedgeKeyInjective(unique[i], w);
      }
    }
    forall x | WedgeKey(x) in wedgeIndices'
      ensures x in unique'
    {
      WedgeKeyInjective(x, w);
    }
    var done, done' := wedges[..l], wedges[..l + 1];
    assert forall k :: 0 <= k < l ==> done'[k] == done[k];
  }

  /** Where the first occurrence of an item of a list without repeats is. */
  lemma IndexOfDistinct<T>(s: seq<T>, j: nat)
    requires Distinct(s) && j < |s|
    ensures IndexOf(s, s[j]) == j
  {
  }

  lemma DedupDone(wedges: seq<Wedge>, unique: seq<Wedge>, wedgeIndices: map<(int, F32, F32, int), nat>,
                  loopWedgeIndices: seq<nat>, base: nat)
    requires unique == Dedup(wedges[..|wedges|])
    requires DedupState(wedges[..|wedges|], unique, wedgeIndices, loopWedgeIndices, base)
    ensures unique == Dedup(wedges)
    ensures |loopWedgeIndices| == |wedges|
    ensures forall l :: 0 <= l < |wedges| ==>
      wedges[l] in unique && loopWedgeIndices[l] == base + IndexOf(unique, wedges[l])
  {
    assert wedges[..|wedges|] == wedges;
    DedupDistinct(wedges);
    forall l | 0 <= l < |wedges|
      ensures wedges[l] in unique && loopWedgeIndices[l] == base + IndexOf(unique, wedges[l])
    {
      IndexOfDistinct(unique, loopWedgeIndices[l] - base);
    }
  }

  /**
   * The wedges appended for an object are distinct, and the wedge a loop is
   * given is that loop's own wedge.
   */
  lemma LoopWedgeIndicesRoundTrip(before: seq<WedgeEntry>, wedges: seq<Wedge>, loopWedgeIndices: seq<nat>)
    requires |loopWedgeIndices| == |wedges|
    requires forall l :: 0 <= l < |wedges| ==>
      wedges[l] in Dedup(wedges) && loopWedgeIndices[l] == |before| + IndexOf(Dedup(wedges), wedges[l])
    ensures var after := before + Map(Dedup(wedges), Built);
      && Distinct(after[|before|..])
      && forall l :: 0 <= l < |wedges| ==> |before| <= loopWedgeIndices[l] < |after| && after[loopWedgeIndices[l]] == BuiltWedge(wedges[l])
  {
    var after := before + Map(Dedup(wedges), Built);
    DedupDistinct(wedges);
    assert after[|before|..] == Map(Dedup(wedges), Built);
  }

  // ---------------------------------------------------------------------
  // Faces
  // ---------------------------------------------------------------------

  /** Every triangle's polygon has a smoothing group and every loop a wedge index. */
  predicate FacesDefined(triangles: seq<LoopTriangle>, loopWedgeIndices: seq<nat>, materialIndices: seq<nat>, polyGroups: seq<int>)
  {
    TrianglesWithin(triangles, |loopWedgeIndices|) && SlotsWithin(triangles, materialIndices)
    && forall t :: 0 <= t < |triangles| ==> triangles[t].polygonIndex < |polyGroups|
  }

  /**
   * The face of a loop triangle: the wedge indices of its loops in reverse
   * order, its material index and its polygon's smoothing groups, each
   * stored in the face's ctypes field, which keeps the low bits.
   */
  function TriangleFace(t: LoopTriangle, loopWedgeIndices: seq<nat>, materialIndices: seq<nat>, polyGroups: seq<int>): (r: Face)
    requires forall j :: 0 <= j < 3 ==> t.loops[j] < |loopWedgeIndices|
    requires t.materialIndex < |materialIndices| && t.polygonIndex < |polyGroups|
    ensures forall j :: 0 <= j < 3 ==> r.wedgeIndices[j] == U16.Wrap(loopWedgeIndices[t.loops[2 - j]])
    ensures r.materialIndex == U8.Wrap(TriangleMaterial(t, materialIndices))
    ensures r.smoothingGroups == I32.Wrap(polyGroups[t.polygonIndex])
  {
    var corners: Corners16 := [U16.Wrap(loopWedgeIndices[t.loops[2]]), U16.Wrap(loopWedgeIndices[t.loops[1]]), U16.Wrap(loopWedgeIndices[t.loops[0]])];
    Face(corners, U8.Wrap(materialIndices[t.materialIndex]), 0, I32.Wrap(polyGroups[t.polygonIndex]))
  }

  /** The face with its first and last wedge indices swapped, which turns its normal around. */
  function Flipped(face: Face): (r: Face)
    ensures r.wedgeIndices == [face.wedgeIndices[2], face.wedgeIndices[1], face.wedgeIndices[0]]
    ensures r.materialIndex == face.materialIndex && r.smoothingGroups == face.smoothingGroups
  {
    var corners: Corners16 := [face.wedgeIndices[2], face.wedgeIndices[1], face.wedgeIndices[0]];
    face.(wedgeIndices := corners)
  }

  lemma FlippedInvolution(face: Face)
    ensures Flipped(Flipped(face)) == face
  {
    assert Flipped(Flipped(face)).wedgeIndices == face.wedgeIndices;
  }

  /** The face a triangle ends up as, flipped when the object's normals are. */
  function ObjectFace(t: LoopTriangle, loopWedgeIndices: seq<nat>, materialIndices: seq<nat>, polyGroups: seq<int>, flip: bool): Face
    requires forall j :: 0 <= j < 3 ==> t.loops[j] < |loopWedgeIndices|
    requires t.materialIndex < |materialIndices| && t.polygonIndex < |polyGroups|
  {
    var face := TriangleFace(t, loopWedgeIndices, materialIndices, polyGroups);
    if flip then Flipped(face) else face
  }

  /** One face per loop triangle, in order. */
  function ObjectFaces(triangles: seq<LoopTriangle>, loopWedgeIndices: seq<nat>, materialIndices: seq<nat>, polyGroups: seq<int>, flip: bool): (r: seq<FaceEntry>)
    requires FacesDefined(triangles, loopWedgeIndices, materialIndices, polyGroups)
    ensures |r| == |triangles|
  {
    seq(|triangles|, t requires 0 <= t < |triangles| => Face16Entry(ObjectFace(triangles[t], loopWedgeIndices, materialIndices, polyGroups, flip)))
  }

  /**
   * The face loop of `build_psk`, then, for an object whose normals are
   * flipped, the swap of the first and last wedge index of each of its faces.
   */
  method AppendFaces<W>(psk: Psk<W>, triangles: seq<LoopTriangle>, loopWedgeIndices: seq<nat>, materialIndices: seq<nat>,
                        polyGroups: seq<int>, shouldFlipNormals: bool)
    modifies psk`faces
    requires FacesDefined(triangles, loopWedgeIndices, materialIndices, polyGroups)
    ensures psk.faces == old(psk.faces) + ObjectFaces(triangles, loopWedgeIndices, materialIndices, polyGroups, shouldFlipNormals)
  {
    var pskFaceStartIndex := |psk.faces|;
    for t := 0 to |triangles|
      invariant psk.faces == old(psk.faces) + ObjectFaces(triangles[..t], loopWedgeIndices, materialIndices, polyGroups, false)
    {
      assert FacesDefined(triangles[..t + 1], loopWedgeIndices, materialIndices, polyGroups);
      var face := TriangleFace(triangles[t], loopWedgeIndices, materialIndices, polyGroups);
      psk.faces := psk.faces + [Face16Entry(face)];
      assert ObjectFaces(triangles[..t + 1], loopWedgeIndices, materialIndices, polyGroups, false)
          == ObjectFaces(triangles[..t], loopWedgeIndices, materialIndices, polyGroups, false) + [Face16Entry(face)];
    }
    assert triangles[..|triangles|] == triangles;
    if shouldFlipNormals {
      ghost var unflipped := psk.faces;
      FlipFaces(psk, pskFaceStartIndex);
      assert psk.faces == old(psk.faces) + ObjectFaces(triangles, loopWedgeIndices, materialIndices, polyGroups, true) by {
        assert |psk.faces| == |unflipped|;
        forall k | 0 <= k < |psk.faces|
          ensures psk.faces[k] == (old(psk.faces) + ObjectFaces(triangles, loopWedgeIndices, materialIndices, polyGroups, true))[k]
        {
          if k >= pskFaceStartIndex {
            assert unflipped[k] == ObjectFaces(triangles, loopWedgeIndices, materialIndices, polyGroups, false)[k - pskFaceStartIndex];
          } else {
            assert psk.faces[k] == unflipped[..pskFaceStartIndex][k];
          }
        }
      }
    }
  }

  /** A face entry with its first and last wedge indices swapped, whichever record it holds. */
  function FlippedEntry(e: FaceEntry): (r: FaceEntry)
    ensures r.WedgeIndices() == [e.WedgeIndices()[2], e.WedgeIndices()[1], e.WedgeIndices()[0]]
  {
    match e
    case Face16Entry(face) => Face16Entry(Flipped(face))
    case Face32Entry(face) =>
      var corners: Corners32 := [face.wedgeIndices[2], face.wedgeIndices[1], face.wedgeIndices[0]];
      Face32Entry(face.(wedgeIndices := corners))
  }

  /** The loop over `psk.faces[start:]` that swaps the first and last wedge index of each face in place. */
  method FlipFaces<W>(psk: Psk<W>, start: nat)
    modifies psk`faces
    requires start <= |psk.faces|
    ensures |psk.faces| == |old(psk.faces)| && psk.faces[..start] == old(psk.faces)[..start]
    ensures forall k :: start <= k < |psk.faces| ==> psk.faces[k] == FlippedEntry(old(psk.faces)[k])
  {
    for i := start to |psk.faces|
      invariant |psk.faces| == |old(psk.faces)|
      invariant forall k :: 0 <= k < |psk.faces| ==> psk.faces[k] == if start <= k < i then FlippedEntry(old(psk.faces)[k]) else old(psk.faces)[k]
    {
      psk.faces := psk.faces[i := FlippedEntry(psk.faces[i])];
    }
  }

  /**
   * Reading a built face back: the importer's corner order
   * (`PskImporter.CornerWedgesOfFace`) gives the wedges of the triangle's
   * loops in loop order, or in reverse order for a flipped object, as long
   * as every wedge index fits the face's 16-bit fields.
   */
  lemma FaceCornersFollowLoops(t: LoopTriangle, loopWedgeIndices: seq<nat>, materialIndices: seq<nat>, polyGroups: seq<int>, flip: bool)
    requires forall j :: 0 <= j < 3 ==> t.loops[j] < |loopWedgeIndices| && loopWedgeIndices[t.loops[j]] < 0x1_0000
    requires t.materialIndex < |materialIndices| && t.polygonIndex < |polyGroups|
    ensures var corners := PskImporter.CornerWedgesOfFace(Face16Entry(ObjectFace(t, loopWedgeIndices, materialIndices, polyGroups, flip)));
      forall j :: 0 <= j < 3 ==> corners[j] == loopWedgeIndices[t.loops[if flip then 2 - j else j]]
  {
    var face := TriangleFace(t, loopWedgeIndices, materialIndices, polyGroups);
    forall j | 0 <= j < 3
      ensures face.wedgeIndices[j] == loopWedgeIndices[t.loops[2 - j]]
    {
      assert U16.InRange(loopWedgeIndices[t.loops[2 - j]]);
    }
  }

  // ---------------------------------------------------------------------
  // Weights
  // ---------------------------------------------------------------------

  /**
   * The armature a mesh is weighted to: its bones, the names of its
   * exported bones, and the PSK index of its first exported bone, which is
   * also its root bone.
   */
  datatype ArmatureBinding = ArmatureBinding(bones: seq<Bone>, boneNames: seq<string>, rootBoneIndex: nat)

  /** Following the parent link n times from bone k; None once a bone has no parent. */
  function AncestorAt(bones: seq<Bone>, k: nat, n: nat): Option<nat>
    decreases n
  {
    if k >= |bones| then None
    else if n == 0 then Some(k)
    else match bones[k].parent
      case None => None
      case Some(p) => AncestorAt(bones, p, n - 1)
  }

  /** The n-th ancestor of bone k is exported. */
  predicate ExportedAt(bones: seq<Bone>, boneNames: seq<string>, k: nat, n: nat)
  {
    var a := AncestorAt(bones, k, n);
    a.Some? && a.value < |bones| && bones[a.value].name in boneNames
  }

  /**
   * The walk up from bone k to the first bone whose name is exported,
   * taking at most `fuel` bones.
   */
  function NearestExported(bones: seq<Bone>, boneNames: seq<string>, k: nat, fuel: nat): (r: Option<nat>)
    ensures r.Some? ==> r.value < |bones| && bones[r.value].name in boneNames
    decreases fuel
  {
    if fuel == 0 || k >= |bones| then None
    else if bones[k].name in boneNames then Some(k)
    else match bones[k].parent
      case None => None
      case Some(p) => NearestExported(bones, boneNames, p, fuel - 1)
  }

  /**
   * The walk finds the nearest exported ancestor (the bone itself
   * included): the first of the first `fuel` ancestors that is exported,
   * and none when none of them is.
   */
  lemma {:induction false} NearestExportedMeaning(bones: seq<Bone>, boneNames: seq<string>, k: nat, fuel: nat)
    ensures var r := NearestExported(bones, boneNames, k, fuel);
      r.Some? ==>
        exists n :: (0 <= n < fuel && AncestorAt(bones, k, n) == r && ExportedAt(bones, boneNames, k, n)
                     && forall m :: 0 <= m < n ==> !ExportedAt(bones, boneNames, k, m))
    ensures NearestExported(bones, boneNames, k, fuel).None? ==> forall n :: 0 <= n < fuel ==> !ExportedAt(bones, boneNames, k, n)
    decreases fuel
  {
    if fuel == 0 || k >= |bones| {
    } else if bones[k].name in boneNames {
      assert AncestorAt(bones, k, 0) == Some(k);
    } else {
      match bones[k].parent
      case None =>
        forall n | 0 <= n < fuel
          ensures !ExportedAt(bones, boneNames, k, n)
        {
          if n > 0 { assert AncestorAt(bones, k, n) == None; }
        }
      case Some(p) =>
        NearestExportedMeaning(bones, boneNames, p, fuel - 1);
        forall n | 1 <= n
          ensures AncestorAt(bones, k, n) == AncestorAt(bones, p, n - 1)
        {
        }
        assert !ExportedAt(bones, boneNames, k, 0);
        var r := NearestExported(bones, boneNames, p, fuel - 1);
        if r.Some? {
          var n :| 0 <= n < fuel - 1 && AncestorAt(bones, p, n) == r && ExportedAt(bones, boneNames, p, n)
            && forall m :: 0 <= m < n ==> !ExportedAt(bones, boneNames, p, m);
          assert ExportedAt(bones, boneNames, k, n + 1);
          forall m | 0 <= m < n + 1
            ensures !ExportedAt(bones, boneNames, k, m)
          {
            if m > 0 { assert !ExportedAt(bones, boneNames, p, m - 1); }
          }
        } else {
          forall n | 0 <= n < fuel
            ensures !ExportedAt(bones, boneNames, k, n)
          {
            if n > 0 { assert !ExportedAt(bones, boneNames, p, n - 1); }
          }
        }
    }
  }

  /**
   * The PSK bone a vertex group weights: the exported bone of the group's
   * name, else the nearest exported ancestor of the armature bone of that
   * name, else none (the group is skipped). The walk is bounded by the
   * number of bones, which an acyclic hierarchy never exceeds.
   */
  function VertexGroupBoneIndex(groupName: string, armature: ArmatureBinding): (r: Option<nat>)
    ensures r.Some? ==> armature.rootBoneIndex <= r.value < armature.rootBoneIndex + |armature.boneNames|
    ensures groupName in armature.boneNames ==>
      r == Some(armature.rootBoneIndex + IndexOf(armature.boneNames, groupName))
    ensures groupName !in armature.boneNames && PsxBoneList.FindBone(armature.bones, groupName).None? ==> r.None?
  {
    if groupName in armature.boneNames then Some(armature.rootBoneIndex + IndexOf(armature.boneNames, groupName))
    else match PsxBoneList.FindBone(armature.bones, groupName)
      case None => None
      case Some(k) =>
        match NearestExported(armature.bones, armature.boneNames, k, |armature.bones|)
        case None => None
        case Some(a) => Some(armature.rootBoneIndex + IndexOf(armature.boneNames, armature.bones[a].name))
  }

  /** `vertex_group_bone_indices`, by vertex group position. */
  function VertexGroupBoneIndices(groupNames: seq<string>, armature: ArmatureBinding): (r: seq<Option<nat>>)
    ensures |r| == |groupNames| && forall g :: 0 <= g < |groupNames| ==> r[g] == VertexGroupBoneIndex(groupNames[g], armature)
  {
    Map(groupNames, (name: string) => VertexGroupBoneIndex(name, armature))
  }

  /** `vertex_group.weight(vertex_index)`: None where Blender raises RuntimeError (the vertex is not in the group). */
  type GroupWeight = (nat, nat) -> Option<real>

  /** A weight the builder keeps: one that exists and is not zero. */
  predicate Kept(w: Option<real>)
  {
    w.Some? && w.value != 0.0
  }

  /** The records of group g for the vertices below n, bone b. */
  function VertexRecords(b: nat, g: nat, groupWeight: GroupWeight, vertexOffset: nat, n: nat): (r: seq<Weight<real>>)
    ensures forall k :: 0 <= k < |r| ==> r[k].weight != 0.0 && r[k].boneIndex == I32.Wrap(b)
    ensures forall v :: 0 <= v < n && Kept(groupWeight(g, v)) ==>
      Weight(groupWeight(g, v).value, I32.Wrap(vertexOffset + v), I32.Wrap(b)) in r
  {
    if n == 0 then []
    else
      var w := groupWeight(g, n - 1);
      VertexRecords(b, g, groupWeight, vertexOffset, n - 1)
        + (if Kept(w) then [Weight(w.value, I32.Wrap(vertexOffset + n - 1), I32.Wrap(b))] else [])
  }

  /** The records of the vertex groups below g. */
  function GroupRecords(groupBones: seq<Option<nat>>, groupWeight: GroupWeight, vertexOffset: nat, vertexCount: nat, g: nat): (r: seq<Weight<real>>)
    requires g <= |groupBones|
    ensures forall k :: 0 <= k < |r| ==> r[k].weight != 0.0
  {
    if g == 0 then []
    else
      GroupRecords(groupBones, groupWeight, vertexOffset, vertexCount, g - 1)
        + (if groupBones[g - 1].Some? then VertexRecords(groupBones[g - 1].value, g - 1, groupWeight, vertexOffset, vertexCount) else [])
  }

  /** Some vertex group below g with a bone keeps a weight for vertex v. */
  predicate Assigned(groupBones: seq<Option<nat>>, groupWeight: GroupWeight, g: nat, v: nat)
    requires g <= |groupBones|
  {
    exists h :: 0 <= h < g && groupBones[h].Some? && Kept(groupWeight(h, v))
  }

  /** The fallback records of the vertices below n that no group weights: weight 1.0 on the root bone. */
  function FallbackRecords(groupBones: seq<Option<nat>>, groupWeight: GroupWeight, vertexOffset: nat, rootBoneIndex: nat, n: nat): (r: seq<Weight<real>>)
    ensures forall k :: 0 <= k < |r| ==> r[k] .weight == 1.0 && r[k].boneIndex == I32.Wrap(rootBoneIndex)
    ensures forall v :: 0 <= v < n ==>
      (Weight(1.0, I32.Wrap(vertexOffset + v), I32.Wrap(rootBoneIndex)) in r <== !Assigned(groupBones, groupWeight, |groupBones|, v))
  {
    if n == 0 then []
    else
      FallbackRecords(groupBones, groupWeight, vertexOffset, rootBoneIndex, n - 1)
        + (if Assigned(groupBones, groupWeight, |groupBones|, n - 1) then [] else [Weight(1.0, I32.Wrap(vertexOffset + n - 1), I32.Wrap(rootBoneIndex))])
  }

  /** The weights `build_psk` appends for one mesh object bound to an armature. */
  function ObjectWeights(groupBones: seq<Option<nat>>, groupWeight: GroupWeight, vertexOffset: nat, vertexCount: nat, rootBoneIndex: nat): seq<Weight<real>>
  {
    GroupRecords(groupBones, groupWeight, vertexOffset, vertexCount, |groupBones|)
      + FallbackRecords(groupBones, groupWeight, vertexOffset, rootBoneIndex, vertexCount)
  }

  /**
   * The weight loops of `build_psk`: every kept weight of every vertex
   * group with a bone, marking its vertex as assigned, then weight 1.0 on
   * the root bone for each vertex left unassigned.
   */
  method AppendWeights(psk: Psk<real>, groupBones: seq<Option<nat>>, groupWeight: GroupWeight,
                       vertexOffset: nat, vertexCount: nat, rootBoneIndex: nat)
    modifies psk`weights
    ensures psk.weights == old(psk.weights) + ObjectWeights(groupBones, groupWeight, vertexOffset, vertexCount, rootBoneIndex)
  {
    var verticesAssignedWeights := new bool[vertexCount](_ => false);
    for g := 0 to |groupBones|
      invariant psk.weights == old(psk.weights) + GroupRecords(groupBones, groupWeight, vertexOffset, vertexCount, g)
      invariant forall v :: 0 <= v < vertexCount ==> verticesAssignedWeights[v] == Assigned(groupBones, groupWeight, g, v)
    {
      if groupBones[g].None? {
        AssignedStep(groupBones, groupWeight, g);
        continue;
      }
      var boneIndex := groupBones[g].value;
      AppendGroupWeights(psk, verticesAssignedWeights, groupWeight, g, boneIndex, vertexOffset);
      AssignedStep(groupBones, groupWeight, g);
    }
    AppendFallbackWeights(psk, verticesAssignedWeights, groupBones, groupWeight, vertexOffset, rootBoneIndex);
  }

  /** The last weight loop: weight 1.0 on the root bone for every vertex no group weighted. */
  method AppendFallbackWeights(psk: Psk<real>, verticesAssignedWeights: array<bool>, groupBones: seq<Option<nat>>,
                               groupWeight: GroupWeight, vertexOffset: nat, rootBoneIndex: nat)
    modifies psk`weights
    requires forall v :: 0 <= v < verticesAssignedWeights.Length ==>
      verticesAssignedWeights[v] == Assigned(groupBones, groupWeight, |groupBones|, v)
    ensures psk.weights == old(psk.weights) + FallbackRecords(groupBones, groupWeight, vertexOffset, rootBoneIndex, verticesAssignedWeights.Length)
  {
    var fallbackWeightBoneIndex := rootBoneIndex;
    for vertexIndex := 0 to verticesAssignedWeights.Length
      invariant psk.weights == old(psk.weights) + FallbackRecords(groupBones, groupWeight, vertexOffset, rootBoneIndex, vertexIndex)
    {
      if !verticesAssignedWeights[vertexIndex] {
        psk.weights := psk.weights + [Weight(1.0, I32.Wrap(vertexOffset + vertexIndex), I32.Wrap(fallbackWeightBoneIndex))];
      }
    }
  }

  /** The inner weight loop: the kept weights of vertex group g, each marking its vertex as assigned. */
  method AppendGroupWeights(psk: Psk<real>, verticesAssignedWeights: array<bool>, groupWeight: GroupWeight,
                            g: nat, boneIndex: nat, vertexOffset: nat)
    modifies psk`weights, verticesAssignedWeights
    ensures psk.weights == old(psk.weights) + VertexRecords(boneIndex, g, groupWeight, vertexOffset, verticesAssignedWeights.Length)
    ensures forall v :: 0 <= v < verticesAssignedWeights.Length ==>
      verticesAssignedWeights[v] == (old(verticesAssignedWeights[v]) || Kept(groupWeight(g, v)))
  {
    for vertexIndex := 0 to verticesAssignedWeights.Length
      invariant psk.weights == old(psk.weights) + VertexRecords(boneIndex, g, groupWeight, vertexOffset, vertexIndex)
      invariant forall v :: 0 <= v < verticesAssignedWeights.Length ==>
        verticesAssignedWeights[v] == (old(verticesAssignedWeights[v]) || (v < vertexIndex && Kept(groupWeight(g, v))))
    {
      var weight := groupWeight(g, vertexIndex);
      if weight.None? {
        continue;
      }
      if weight.value == 0.0 {
        continue;
      }
      var w := Weight(weight.value, I32.Wrap(vertexOffset + vertexIndex), I32.Wrap(boneIndex));
      psk.weights := psk.weights + [w];
      verticesAssignedWeights[vertexIndex] := true;
    }
  }

  lemma AssignedStep(groupBones: seq<Option<nat>>, groupWeight: GroupWeight, g: nat)
    requires g < |groupBones|
    ensures forall v ::
      (Assigned(groupBones, groupWeight, g + 1, v)
       <==> Assigned(groupBones, groupWeight, g, v) || (groupBones[g].Some? && Kept(groupWeight(g, v))))
  {
    forall v | Assigned(groupBones, groupWeight, g + 1, v)
      ensures Assigned(groupBones, groupWeight, g, v) || (groupBones[g].Some? && Kept(groupWeight(g, v)))
    {
      var h :| 0 <= h < g + 1 && groupBones[h].Some? && Kept(groupWeight(h, v));
      if h < g { assert Assigned(groupBones, groupWeight, g, v); }
    }
  }

  /** Some record of ws is for the point of vertex v. */
  predicate VertexCovered(ws: seq<Weight<real>>, vertexOffset: nat, v: nat)
  {
    exists k :: 0 <= k < |ws| && ws[k].pointIndex == I32.Wrap(vertexOffset + v)
  }

  /**
   * What the weights of one object say: every record has a non-zero weight,
   * and every vertex gets at least one record.
   */
  lemma ObjectWeightsMeaning(groupBones: seq<Option<nat>>, groupWeight: GroupWeight, vertexOffset: nat, vertexCount: nat, rootBoneIndex: nat)
    ensures var ws := ObjectWeights(groupBones, groupWeight, vertexOffset, vertexCount, rootBoneIndex);
      (forall k :: 0 <= k < |ws| ==> ws[k].weight != 0.0)
      && forall v :: 0 <= v < vertexCount ==> VertexCovered(ws, vertexOffset, v)
  {
    var groups := GroupRecords(groupBones, groupWeight, vertexOffset, vertexCount, |groupBones|);
    var fallback := FallbackRecords(groupBones, groupWeight, vertexOffset, rootBoneIndex, vertexCount);
    var ws := groups + fallback;
    forall v | 0 <= v < vertexCount
      ensures VertexCovered(ws, vertexOffset, v)
    {
      if Assigned(groupBones, groupWeight, |groupBones|, v) {
        var h :| 0 <= h < |groupBones| && groupBones[h].Some? && Kept(groupWeight(h, v));
        GroupRecordsHold(groupBones, groupWeight, vertexOffset, vertexCount, |groupBones|, h);
        var w := Weight(groupWeight(h, v).value, I32.Wrap(vertexOffset + v), I32.Wrap(groupBones[h].value));
        CoveredByMember(groups, fallback, w, vertexOffset, v);
      } else {
        var w := Weight(1.0, I32.Wrap(vertexOffset + v), I32.Wrap(rootBoneIndex));
        CoveredByMember(fallback, [], w, vertexOffset, v);
        assert fallback + [] == fallback;
        CoveredAfter(groups, fallback, vertexOffset, v);
      }
    }
  }

  lemma CoveredByMember(a: seq<Weight<real>>, b: seq<Weight<real>>, w: Weight<real>, vertexOffset: nat, v: nat)
    requires w in a && w.pointIndex == I32.Wrap(vertexOffset + v)
    ensures VertexCovered(a + b, vertexOffset, v)
  {
    var k :| 0 <= k < |a| && a[k] == w;
    assert (a + b)[k] == w;
  }

  lemma CoveredAfter(a: seq<Weight<real>>, b: seq<Weight<real>>, vertexOffset: nat, v: nat)
    requires VertexCovered(b, vertexOffset, v)
    ensures VertexCovered(a + b, vertexOffset, v)
  {
    var k :| 0 <= k < |b| && b[k].pointIndex == I32.Wrap(vertexOffset + v);
    assert (a + b)[|a| + k] == b[k];
  }

  /**
   * A vertex that no vertex group weights gets the fallback: weight 1.0 on
   * the root bone.
   */
  lemma UnweightedVertexFallsBack(groupBones: seq<Option<nat>>, groupWeight: GroupWeight, vertexOffset: nat, vertexCount: nat, rootBoneIndex: nat, v: nat)
    requires v < vertexCount && !Assigned(groupBones, groupWeight, |groupBones|, v)
    ensures Weight(1.0, I32.Wrap(vertexOffset + v), I32.Wrap(rootBoneIndex)) in ObjectWeights(groupBones, groupWeight, vertexOffset, vertexCount, rootBoneIndex)
  {
    var groups := GroupRecords(groupBones, groupWeight, vertexOffset, vertexCount, |groupBones|);
    var fallback := FallbackRecords(groupBones, groupWeight, vertexOffset, rootBoneIndex, vertexCount);
    var w := Weight(1.0, I32.Wrap(vertexOffset + v), I32.Wrap(rootBoneIndex));
    var k :| 0 <= k < |fallback| && fallback[k] == w;
    assert (groups + fallback)[|groups| + k] == w;
  }

  lemma {:induction false} GroupRecordsHold(groupBones: seq<Option<nat>>, groupWeight: GroupWeight, vertexOffset: nat, vertexCount: nat, g: nat, h: nat)
    requires h < g <= |groupBones| && groupBones[h].Some?
    ensures forall v :: 0 <= v < vertexCount && Kept(groupWeight(h, v)) ==>
      Weight(groupWeight(h, v).value, I32.Wrap(vertexOffset + v), I32.Wrap(groupBones[h].value)) in GroupRecords(groupBones, groupWeight, vertexOffset, vertexCount, g)
  {
    if h < g - 1 {
      GroupRecordsHold(groupBones, groupWeight, vertexOffset, vertexCount, g - 1, h);
    }
  }

  // ---------------------------------------------------------------------
  // Vertex normals
  // ---------------------------------------------------------------------

  /** The split normals of the loops of vertex v, in loop order. */
  function SplitNormals<N>(loops: seq<MeshLoop<N>>, v: nat): (r: seq<N>)
    ensures |r| <= |loops|
    ensures forall k :: 0 <= k < |loops| && loops[k].vertexIndex == v ==> loops[k].normal in r
  {
    if loops == [] then []
    else
      var n := |loops| - 1;
      SplitNormals(loops[..n], v) + (if loops[n].vertexIndex == v then [loops[n].normal] else [])
  }

  /**
   * `split_normals_by_vertex` once the wedge loop has run: `size` lists,
   * each holding its vertex's split normals; they stay empty when the mesh
   * has no active UV layer, since only that branch collects them.
   */
  function SplitNormalsByVertex<N>(loops: seq<MeshLoop<N>>, hasUvLayer: bool, size: nat): (r: seq<seq<N>>)
    ensures |r| == size
  {
    seq(size, v requires 0 <= v < size => if hasUvLayer then SplitNormals(loops, v) else [])
  }

  /**
   * The vertex normals one object appends, as written: one per list of
   * `split_normals_by_vertex`, whose size is the number of points exported
   * so far, this object's and every earlier object's.
   */
  function ObjectNormalsAsWritten<N>(loops: seq<MeshLoop<N>>, hasUvLayer: bool, pointCount: nat, average: seq<N> -> Vector3): (r: seq<Vector3>)
    ensures |r| == pointCount
  {
    Map(SplitNormalsByVertex(loops, hasUvLayer, pointCount), average)
  }

  /** The vertex normals one object appends: one per vertex of its own, the average of its split normals. */
  function ObjectNormals<N>(loops: seq<MeshLoop<N>>, hasUvLayer: bool, vertexCount: nat, average: seq<N> -> Vector3): (r: seq<Vector3>)
    ensures |r| == vertexCount
    ensures forall v :: 0 <= v < vertexCount ==> r[v] == average(if hasUvLayer then SplitNormals(loops, v) else [])
  {
    Map(SplitNormalsByVertex(loops, hasUvLayer, vertexCount), average)
  }

  /** Every loop is a loop of one of the mesh's vertices. */
  predicate LoopsWithin<N>(loops: seq<MeshLoop<N>>, vertexCount: nat)
  {
    forall l :: 0 <= l < |loops| ==> loops[l].vertexIndex < vertexCount
  }

  /**
   * The normal loops of `build_psk` for one object: each loop's split normal
   * added to its vertex's list, then the average of each list appended.
   */
  method AppendVertexNormals<N>(psk: Psk<real>, loops: seq<MeshLoop<N>>, hasUvLayer: bool, vertexCount: nat, average: seq<N> -> Vector3)
    modifies psk`vertexNormals
    requires LoopsWithin(loops, vertexCount)
    ensures psk.vertexNormals == old(psk.vertexNormals) + ObjectNormals(loops, hasUvLayer, vertexCount, average)
  {
    var splitNormalsByVertex := new seq<N>[vertexCount](_ => []);
    if hasUvLayer {
      for l := 0 to |loops|
        invariant psk.vertexNormals == old(psk.vertexNormals)
        invariant forall v :: 0 <= v < vertexCount ==> splitNormalsByVertex[v] == SplitNormals(loops[..l], v)
      {
        assert loops[..l + 1][..l] == loops[..l];
        var loop := loops[l];
        splitNormalsByVertex[loop.vertexIndex] := splitNormalsByVertex[loop.vertexIndex] + [loop.normal];
      }
      assert loops[..|loops|] == loops;
    }
    assert Map(SplitNormalsByVertex(loops, hasUvLayer, vertexCount)[..0], average) == [];
    assert psk.vertexNormals == old(psk.vertexNormals) + [];
    for v := 0 to vertexCount
      invariant forall u :: 0 <= u < vertexCount ==> splitNormalsByVertex[u] == SplitNormalsByVertex(loops, hasUvLayer, vertexCount)[u]
      invariant psk.vertexNormals == old(psk.vertexNormals) + Map(SplitNormalsByVertex(loops, hasUvLayer, vertexCount)[..v], average)
    {
      assert SplitNormalsByVertex(loops, hasUvLayer, vertexCount)[..v + 1]
          == SplitNormalsByVertex(loops, hasUvLayer, vertexCount)[..v] + [splitNormalsByVertex[v]];
      MapConcat(SplitNormalsByVertex(loops, hasUvLayer, vertexCount)[..v], [splitNormalsByVertex[v]], average);
      psk.vertexNormals := psk.vertexNormals + [average(splitNormalsByVertex[v])];
    }
    assert SplitNormalsByVertex(loops, hasUvLayer, vertexCount)[..vertexCount] == SplitNormalsByVertex(loops, hasUvLayer, vertexCount);
  }

  /** A mesh's vertex count and loops, as far as the vertex normals go. */
  datatype NormalSource<N> = NormalSource(vertexCount: nat, loops: seq<MeshLoop<N>>)

  /** The points exported before object i. */
  function PointsBefore<N>(objects: seq<NormalSource<N>>, i: nat): nat
    requires i <= |objects|
  {
    if i == 0 then 0 else PointsBefore(objects, i - 1) + objects[i - 1].vertexCount
  }

  /** The vertex normals of a run of objects with UV layers, as written. */
  function AllNormalsAsWritten<N>(objects: seq<NormalSource<N>>, average: seq<N> -> Vector3): seq<Vector3>
  {
    if objects == [] then []
    else
      var n := |objects| - 1;
      AllNormalsAsWritten(objects[..n], average)
        + ObjectNormalsAsWritten(objects[n].loops, true, PointsBefore(objects, n) + objects[n].vertexCount, average)
  }

  /** The vertex normals of a run of objects with UV layers, each object contributing its own. */
  function AllNormals<N>(objects: seq<NormalSource<N>>, average: seq<N> -> Vector3): seq<Vector3>
  {
    if objects == [] then []
    else
      var n := |objects| - 1;
      AllNormals(objects[..n], average) + ObjectNormals(objects[n].loops, true, objects[n].vertexCount, average)
  }

  lemma PointsBeforePrefix<N>(objects: seq<NormalSource<N>>, n: nat, i: nat)
    requires i <= n <= |objects|
    ensures PointsBefore(objects[..n], i) == PointsBefore(objects, i)
  {
    if i > 0 {
      PointsBeforePrefix(objects, n, i - 1);
      assert objects[..n][i - 1] == objects[i - 1];
    }
  }

  lemma {:induction false} PointsBeforeMonotone<N>(objects: seq<NormalSource<N>>, i: nat, j: nat)
    requires i <= j <= |objects|
    ensures PointsBefore(objects, i) + (if i < j then objects[i].vertexCount else 0) <= PointsBefore(objects, j)
    decreases j
  {
    if i < j {
      PointsBeforeMonotone(objects, i, j - 1);
    }
  }

  /** The normal of the point of vertex v of object i is the average of that vertex's split normals. */
  predicate NormalAligned<N>(objects: seq<NormalSource<N>>, average: seq<N> -> Vector3, i: nat, v: nat)
    requires i < |objects|
  {
    var all := AllNormals(objects, average);
    PointsBefore(objects, i) + v < |all| && all[PointsBefore(objects, i) + v] == average(SplitNormals(objects[i].loops, v))
  }

  /**
   * With each object contributing its own vertices' normals, there is one
   * normal per exported point, and the normal of the point of vertex v of
   * object i is the average of that vertex's split normals.
   */
  lemma {:induction false} AllNormalsAligned<N>(objects: seq<NormalSource<N>>, average: seq<N> -> Vector3)
    ensures |AllNormals(objects, average)| == PointsBefore(objects, |objects|)
    ensures forall i: nat, v: nat :: i < |objects| && v < objects[i].vertexCount ==> NormalAligned(objects, average, i, v)
  {
    if objects != [] {
      var n := |objects| - 1;
      var front := objects[..n];
      AllNormalsAligned(front, average);
      PointsBeforePrefix(objects, n, n);
      var all := AllNormals(objects, average);
      forall i: nat, v: nat | i < |objects| && v < objects[i].vertexCount
        ensures NormalAligned(objects, average, i, v)
      {
        if i < n {
          PointsBeforePrefix(objects, n, i);
          assert front[i] == objects[i];
          PointsBeforeMonotone(objects, i, n);
          assert PointsBefore(front, i) + v < |AllNormals(front, average)|;
          assert NormalAligned(front, average, i, v);
        } else {
          assert |AllNormals(front, average)| == PointsBefore(objects, n);
          assert all[PointsBefore(objects, i) + v] == ObjectNormals(objects[n].loops, true, objects[n].vertexCount, average)[v];
        }
      }
    }
  }

  /** An average the way mathutils' `normalize` leaves it for one unit normal and for none. */
  function UnitOrZeroAverage(normals: seq<Vector3>): Vector3
  {
    if normals == [] then Vector3(FLOAT_ZERO, FLOAT_ZERO, FLOAT_ZERO) else normals[0]
  }

  /**
   * Three meshes of one vertex each, every vertex with one loop whose split
   * normal is up: as written, six normals are exported for three points,
   * and the third point's normal is the empty average instead of up.
   */
  lemma NormalsAsWrittenMisaligned()
    ensures var up := Vector3(FLOAT_ZERO, FLOAT_ZERO, FLOAT_ONE);
      var mesh := NormalSource(1, [MeshLoop(0, up)]);
      var objects := [mesh, mesh, mesh];
      PointsBefore(objects, 3) == 3 && |AllNormals(objects, UnitOrZeroAverage)| == 3
      && |AllNormalsAsWritten(objects, UnitOrZeroAverage)| == 6
      && AllNormalsAsWritten(objects, UnitOrZeroAverage)[2] == Vector3(FLOAT_ZERO, FLOAT_ZERO, FLOAT_ZERO)
      && AllNormals(objects, UnitOrZeroAverage)[2] == up
  {
    var up := Vector3(FLOAT_ZERO, FLOAT_ZERO, FLOAT_ONE);
    var mesh := NormalSource(1, [MeshLoop(0, up)]);
    var objects := [mesh, mesh, mesh];
    assert objects[..2] == [mesh, mesh];
    assert objects[..2][..1] == [mesh];
    assert [mesh][..0] == [];
    assert SplitNormals([MeshLoop(0, up)], 0) == [up] by {
      assert [MeshLoop(0, up)][..0] == [];
    }
    assert SplitNormals([MeshLoop(0, up)], 1) == [] by {
      assert [MeshLoop(0, up)][..0] == [];
    }
    AllNormalsAligned(objects, UnitOrZeroAverage);
    assert PointsBefore(objects, 1) == 1;
    assert PointsBefore(objects, 2) == 2;
    assert PointsBefore(objects[..2], 1) == 1;
    var one := [mesh];
    assert one[..0] == [];
    var first := AllNormalsAsWritten(one, UnitOrZeroAverage);
    assert AllNormalsAsWritten(one[..0], UnitOrZeroAverage) == [];
    assert PointsBefore(one, 0) + one[0].vertexCount == 1;
    assert first == [] + ObjectNormalsAsWritten(mesh.loops, true, 1, UnitOrZeroAverage);
    var second := AllNormalsAsWritten(objects[..2], UnitOrZeroAverage);
    assert second == first + ObjectNormalsAsWritten(mesh.loops, true, 2, UnitOrZeroAverage);
    var third := AllNormalsAsWritten(objects, UnitOrZeroAverage);
    assert third == second + ObjectNormalsAsWritten(mesh.loops, true, 3, UnitOrZeroAverage);
    assert third[2] == second[2] == ObjectNormalsAsWritten(mesh.loops, true, 2, UnitOrZeroAverage)[1];
  }

  // ---------------------------------------------------------------------
  // One mesh object
  // ---------------------------------------------------------------------

  /**
   * A mesh object as `build_psk` reads it, with the mesh data of the
   * evaluation state in use: the material names of its slots, its points
   * (already moved into export space), its loops, its active UV layer, its
   * loop triangles and the smoothing groups of its polygons, how many axes
   * of its world scale are negative, whether it is in the view layer (so
   * that it can be evaluated), its vertex groups and the armature it is
   * weighted to.
   */
  datatype MeshObject<N> = MeshObject(
    name: string,
    slotMaterialNames: seq<Option<string>>,
    points: seq<Vector3>,
    loops: seq<MeshLoop<N>>,
    uvs: Option<seq<(F32, F32)>>,
    triangles: seq<LoopTriangle>,
    polyGroups: seq<int>,
    negativeScaleAxes: nat,
    inViewLayer: bool,
    vertexGroupNames: seq<string>,
    groupWeight: GroupWeight,
    armature: Option<ArmatureBinding>)

  /** What Blender guarantees of a mesh: loops name vertices, triangles name loops and polygons, one UV per loop. */
  predicate WellFormedMesh<N>(obj: MeshObject<N>)
  {
    LoopsWithin(obj.loops, |obj.points|) && UvLayerFits(obj.loops, obj.uvs) && TrianglesWithin(obj.triangles, |obj.loops|)
    && forall t :: 0 <= t < |obj.triangles| ==> obj.triangles[t].polygonIndex < |obj.polyGroups|
  }

  /** `object_eval_state`: the mesh as stored, or with its modifiers applied; any other value is refused. */
  datatype ObjectEvalState = Original | Evaluated | OtherEvalState(value: string)

  /** `export_space`; any other value is refused. */
  datatype ExportSpace = ArmatureSpace | RootSpace | WorldSpace | OtherExportSpace(value: string)

  /**
   * The export options the mesh part reads, with the two float operations
   * it performs given as functions: 1 - v, and the normalised sum of split
   * normals.
   */
  datatype BuildOptions<!N> = BuildOptions(
    objectEvalState: ObjectEvalState,
    exportSpace: ExportSpace,
    shouldExportVertexNormals: bool,
    oneMinus: F32 -> F32,
    average: seq<N> -> Vector3)

  /**
   * Whether an object's faces are flipped: only for the evaluated mesh,
   * whose scale is applied, and when an odd number of scale axes is negative.
   */
  function ShouldFlipNormals(objectEvalState: ObjectEvalState, negativeScaleAxes: nat): bool
  {
    objectEvalState.Evaluated? && negativeScaleAxes % 2 == 1
  }

  function NotEvaluatedError(name: string): Error
  {
    RuntimeError("Object \"" + name + NOT_EVALUATED)
  }

  const NOT_EVALUATED := "\" is not evaluated.\nThis is likely because the object is in a collection that has been excluded from the view layer."

  /**
   * The errors raised for an object before anything of it is exported: an
   * unknown evaluation state, an object that cannot be evaluated, an
   * unknown export space, checked in that order.
   */
  function ObjectError<N>(obj: MeshObject<N>, options: BuildOptions<N>): (r: Option<Error>)
    ensures options.objectEvalState.OtherEvalState? ==> r == Some(AssertionError)
    ensures options.objectEvalState.Evaluated? && !obj.inViewLayer ==> r == Some(NotEvaluatedError(obj.name))
    ensures options.objectEvalState.Original? || (options.objectEvalState.Evaluated? && obj.inViewLayer) ==>
      r == ExportSpaceError(options.exportSpace)
  {
    match options.objectEvalState
    case Original => ExportSpaceError(options.exportSpace)
    case Evaluated => if !obj.inViewLayer then Some(NotEvaluatedError(obj.name)) else ExportSpaceError(options.exportSpace)
    case OtherEvalState(_) => Some(AssertionError)
  }

  function ExportSpaceError(exportSpace: ExportSpace): (r: Option<Error>)
    ensures r.None? <==> !exportSpace.OtherExportSpace?
    ensures r.Some? ==> r.value == AssertionError
  {
    if exportSpace.OtherExportSpace? then Some(AssertionError) else None
  }

  function NoUvMapWarning(name: string): string
  {
    "\"" + name + "\" has no active UV Map"
  }

  /** The index in `psk.wedges` each loop's wedge goes to, when the object's unique wedges start at `base`. */
  function LoopWedgeIndices(wedges: seq<Wedge>, base: nat): (r: seq<nat>)
    ensures |r| == |wedges|
    ensures forall l :: 0 <= l < |wedges| ==> wedges[l] in Dedup(wedges) && r[l] == base + IndexOf(Dedup(wedges), wedges[l])
  {
    DedupMembers(wedges);
    seq(|wedges|, l requires 0 <= l < |wedges| => base + IndexOf(Dedup(wedges), wedges[l]))
  }

  /** What one object adds to each list of the `Psk`, and the warnings it raises. */
  datatype Contribution = Contribution(
    points: seq<Vector3>,
    wedges: seq<Wedge>,
    faces: seq<FaceEntry>,
    weights: seq<Weight<real>>,
    normals: seq<Vector3>,
    warnings: seq<string>)

  /**
   * The contribution of one object whose points start at `pointBase` and
   * whose wedges start at `wedgeBase`, or the error that stops the build.
   */
  function ObjectContribution<N>(obj: MeshObject<N>, materialNames: seq<string>, options: BuildOptions<N>,
                                 pointBase: nat, wedgeBase: nat): (r: Result<Contribution>)
    requires WellFormedMesh(obj)
    ensures r.Err? <==> (ObjectError(obj, options).Some?
                         || !SlotsWithin(obj.triangles, ObjectMaterialIndices(obj.slotMaterialNames, materialNames)))
    ensures r.Ok? ==> r.value.points == obj.points && |r.value.faces| == |obj.triangles|
  {
    if ObjectError(obj, options).Some? then Err(ObjectError(obj, options).value)
    else
      var materialIndices := ObjectMaterialIndices(obj.slotMaterialNames, materialNames);
      match LoopMaterials(|obj.loops|, obj.triangles, materialIndices)
      case Err(e) => Err(e)
      case Ok(materials) => Ok(Contributed(obj, materialIndices, options, pointBase, wedgeBase, materials))
  }

  /** The contribution of an object that passed its checks, once each loop's material is known. */
  function Contributed<N>(obj: MeshObject<N>, materialIndices: seq<nat>, options: BuildOptions<N>,
                          pointBase: nat, wedgeBase: nat, materials: seq<nat>): (r: Contribution)
    requires WellFormedMesh(obj) && SlotsWithin(obj.triangles, materialIndices) && |materials| == |obj.loops|
    ensures r.points == obj.points && |r.faces| == |obj.triangles|
  {
    var wedges := LoopWedges(obj.loops, obj.uvs, pointBase, options.oneMinus, materials);
    var loopWedgeIndices := LoopWedgeIndices(wedges, wedgeBase);
    var flip := ShouldFlipNormals(options.objectEvalState, obj.negativeScaleAxes);
    var faces := ObjectFaces(obj.triangles, loopWedgeIndices, materialIndices, obj.polyGroups, flip);
    var weights := if obj.armature.Some? then
        ObjectWeights(VertexGroupBoneIndices(obj.vertexGroupNames, obj.armature.value), obj.groupWeight,
                      pointBase, |obj.points|, obj.armature.value.rootBoneIndex)
      else [];
    var normals := if options.shouldExportVertexNormals then ObjectNormals(obj.loops, obj.uvs.Some?, |obj.points|, options.average) else [];
    var warnings := if obj.uvs.None? then [NoUvMapWarning(obj.name)] else [];
    Contribution(obj.points, Dedup(wedges), faces, weights, normals, warnings)
  }

  /** The lists of a `Psk` with one object's contribution appended. */
  function Extended(lists: PskLists<real>, c: Contribution): (r: PskLists<real>)
    ensures r.points == lists.points + c.points && r.wedges == lists.wedges + Map(c.wedges, Built)
    ensures r.faces == lists.faces + c.faces && r.weights == lists.weights + c.weights
    ensures r.vertexNormals == lists.vertexNormals + c.normals
    ensures r.materials == lists.materials && r.bones == lists.bones
  {
    lists.(points := lists.points + c.points, wedges := lists.wedges + Map(c.wedges, Built), faces := lists.faces + c.faces,
           weights := lists.weights + c.weights, vertexNormals := lists.vertexNormals + c.normals)
  }

  /** The postcondition of `BuildObject`: the result and the new lists are those of the object's contribution. */
  ghost predicate ObjectBuilt(r: Result<seq<string>>, c: Result<Contribution>, before: PskLists<real>, after: PskLists<real>)
  {
    && (r.Err? <==> c.Err?)
    && (r.Err? ==> r.error == c.error)
    && (r.Ok? ==> r.value == c.value.warnings && after == Extended(before, c.value))
  }

  lemma ObjectContributionOfError<N>(obj: MeshObject<N>, materialNames: seq<string>, options: BuildOptions<N>, pointBase: nat, wedgeBase: nat)
    requires WellFormedMesh(obj) && ObjectError(obj, options).Some?
    ensures ObjectContribution(obj, materialNames, options, pointBase, wedgeBase) == Err(ObjectError(obj, options).value)
  {
  }

  lemma ObjectContributionOfMaterials<N>(obj: MeshObject<N>, materialNames: seq<string>, options: BuildOptions<N>, pointBase: nat, wedgeBase: nat)
    requires WellFormedMesh(obj) && ObjectError(obj, options).None?
    ensures var materialIndices := ObjectMaterialIndices(obj.slotMaterialNames, materialNames);
      var materials := LoopMaterials(|obj.loops|, obj.triangles, materialIndices);
      ObjectContribution(obj, materialNames, options, pointBase, wedgeBase)
      == if materials.Err? then Err(materials.error)
         else Ok(Contributed(obj, materialIndices, options, pointBase, wedgeBase, materials.value))
  {
  }

  lemma LoopWedgeIndicesUnique(wedges: seq<Wedge>, base: nat, loopWedgeIndices: seq<nat>)
    requires |loopWedgeIndices| == |wedges|
    requires forall l :: 0 <= l < |wedges| ==> wedges[l] in Dedup(wedges) && loopWedgeIndices[l] == base + IndexOf(Dedup(wedges), wedges[l])
    ensures loopWedgeIndices == LoopWedgeIndices(wedges, base)
  {
    var expected := LoopWedgeIndices(wedges, base);
    forall l | 0 <= l < |wedges| ensures loopWedgeIndices[l] == expected[l] {
    }
  }

  lemma ExtendedByFields(before: PskLists<real>, after: PskLists<real>, c: Contribution)
    requires after.points == before.points + c.points && after.wedges == before.wedges + Map(c.wedges, Built)
    requires after.faces == before.faces + c.faces && after.weights == before.weights + c.weights
    requires after.vertexNormals == before.vertexNormals + c.normals
    requires after.materials == before.materials && after.bones == before.bones && after.extraUvs == before.extraUvs
    requires after.vertexColors == before.vertexColors && after.morphInfos == before.morphInfos
    requires after.morphData == before.morphData && after.materialReferences == before.materialReferences
    ensures after == Extended(before, c)
  {
  }

  method AppendPoints<W>(psk: Psk<W>, points: seq<Vector3>)
    modifies psk`points
    ensures psk.points == old(psk.points) + points
  {
    for i := 0 to |points|
      invariant psk.points == old(psk.points) + points[..i]
    {
      assert points[..i + 1] == points[..i] + [points[i]];
      psk.points := psk.points + [points[i]];
    }
    assert points[..|points|] == points;
  }

  /** The points of an object and, when they are exported, its vertex normals. */
  method AppendPointsAndNormals<N>(psk: Psk<real>, obj: MeshObject<N>, options: BuildOptions<N>)
    modifies psk`points, psk`vertexNormals
    requires WellFormedMesh(obj)
    ensures psk.Contents() == old(psk.Contents()).(points := old(psk.points) + obj.points,
      vertexNormals := old(psk.vertexNormals)
        + if options.shouldExportVertexNormals then ObjectNormals(obj.loops, obj.uvs.Some?, |obj.points|, options.average) else [])
  {
    AppendPoints(psk, obj.points);
    if options.shouldExportVertexNormals {
      AppendVertexNormals(psk, obj.loops, obj.uvs.Some?, |obj.points|, options.average);
    }
  }

  /** The lists after an object that passed its checks are its contribution appended to the lists before. */
  lemma ObjectBuiltOk<N>(obj: MeshObject<N>, materialNames: seq<string>, options: BuildOptions<N>,
                         before: PskLists<real>, middle: PskLists<real>, after: PskLists<real>, warnings: seq<string>,
                         materialIndices: seq<nat>, wedges: seq<Wedge>, flip: bool)
    requires WellFormedMesh(obj) && ObjectError(obj, options).None?
    requires materialIndices == ObjectMaterialIndices(obj.slotMaterialNames, materialNames)
    requires LoopMaterials(|obj.loops|, obj.triangles, materialIndices).Ok?
    requires wedges == LoopWedges(obj.loops, obj.uvs, |before.points|, options.oneMinus,
                                  LoopMaterials(|obj.loops|, obj.triangles, materialIndices).value)
    requires flip == ShouldFlipNormals(options.objectEvalState, obj.negativeScaleAxes)
    requires warnings == if obj.uvs.None? then [NoUvMapWarning(obj.name)] else []
    requires middle == before.(points := before.points + obj.points,
      vertexNormals := before.vertexNormals
        + if options.shouldExportVertexNormals then ObjectNormals(obj.loops, obj.uvs.Some?, |obj.points|, options.average) else [])
    requires after == middle.(
      wedges := middle.wedges + Map(Dedup(wedges), Built),
      faces := middle.faces + ObjectFaces(obj.triangles, LoopWedgeIndices(wedges, |middle.wedges|), materialIndices, obj.polyGroups, flip),
      weights := middle.weights + if obj.armature.Some? then
          ObjectWeights(VertexGroupBoneIndices(obj.vertexGroupNames, obj.armature.value), obj.groupWeight,
                        |before.points|, |obj.points|, obj.armature.value.rootBoneIndex)
        else [])
    ensures ObjectBuilt(Ok(warnings), ObjectContribution(obj, materialNames, options, |before.points|, |before.wedges|), before, after)
  {
    ObjectContributionOfMaterials(obj, materialNames, options, |before.points|, |before.wedges|);
  }

  /** The part of `build_psk`'s object loop that follows the wedges of the loops: their indices, the faces and the weights. */
  method AppendWedgesFacesWeights<N>(psk: Psk<real>, obj: MeshObject<N>, wedges: seq<Wedge>, materialIndices: seq<nat>,
                                     shouldFlipNormals: bool, vertexOffset: nat)
    modifies psk`wedges, psk`faces, psk`weights
    requires WellFormedMesh(obj) && |wedges| == |obj.loops| && SlotsWithin(obj.triangles, materialIndices)
    ensures psk.Contents() == old(psk.Contents()).(
      wedges := old(psk.wedges) + Map(Dedup(wedges), Built),
      faces := old(psk.faces)
        + ObjectFaces(obj.triangles, LoopWedgeIndices(wedges, |old(psk.wedges)|), materialIndices, obj.polyGroups, shouldFlipNormals),
      weights := old(psk.weights) + if obj.armature.Some? then
          ObjectWeights(VertexGroupBoneIndices(obj.vertexGroupNames, obj.armature.value), obj.groupWeight,
                        vertexOffset, |obj.points|, obj.armature.value.rootBoneIndex)
        else [])
  {
    var wedgeBase := |psk.wedges|;
    var loopWedgeIndices := AppendUniqueWedges(psk, wedges);
    LoopWedgeIndicesUnique(wedges, wedgeBase, loopWedgeIndices);
    AppendFaces(psk, obj.triangles, loopWedgeIndices, materialIndices, obj.polyGroups, shouldFlipNormals);
    if obj.armature.Some? {
      var armature := obj.armature.value;
      AppendWeights(psk, VertexGroupBoneIndices(obj.vertexGroupNames, armature), obj.groupWeight,
                    vertexOffset, |obj.points|, armature.rootBoneIndex);
    }
  }

  /**
   * The body of the object loop of `build_psk` for one mesh object: the
   * checks, its points, its vertex normals, its wedges, faces and weights.
   */
  method BuildObject<N>(psk: Psk<real>, obj: MeshObject<N>, materialNames: seq<string>, options: BuildOptions<N>) returns (r: Result<seq<string>>)
    modifies psk
    requires WellFormedMesh(obj)
    ensures ObjectBuilt(r, ObjectContribution(obj, materialNames, options, |old(psk.points)|, |old(psk.wedges)|),
                        old(psk.Contents()), psk.Contents())
  {
    ghost var before := psk.Contents();
    var materialIndices := ObjectMaterialIndices(obj.slotMaterialNames, materialNames);
    var error := ObjectError(obj, options);
    if error.Some? {
      r := Err(error.value);
      ObjectContributionOfError(obj, materialNames, options, |psk.points|, |psk.wedges|);
      return;
    }
    var shouldFlipNormals := ShouldFlipNormals(options.objectEvalState, obj.negativeScaleAxes);
    var vertexOffset := |psk.points|;
    AppendPointsAndNormals(psk, obj, options);
    ghost var middle := psk.Contents();

    var warnings: seq<string> := [];
    if obj.uvs.None? {
      warnings := warnings + [NoUvMapWarning(obj.name)];
    }
    var wedges := ObjectLoopWedges(obj.loops, obj.uvs, vertexOffset, options.oneMinus, obj.triangles, materialIndices);
    if wedges.Err? {
      r := Err(wedges.error);
      ObjectContributionOfMaterials(obj, materialNames, options, |before.points|, |before.wedges|);
      return;
    }
    AppendWedgesFacesWeights(psk, obj, wedges.value, materialIndices, shouldFlipNormals, vertexOffset);
    r := Ok(warnings);
    ObjectBuiltOk(obj, materialNames, options, before, middle, psk.Contents(), warnings, materialIndices, wedges.value, shouldFlipNormals);
  }

  // ---------------------------------------------------------------------
  // build_psk
  // ---------------------------------------------------------------------

  /**
   * How each object contributes once its points and wedges start at given
   * positions: the contribution of `ObjectContribution` for the build's
   * material names and options.
   */
  function ContributionOf<N>(materialNames: seq<string>, options: BuildOptions<N>): (MeshObject<N>, nat, nat) -> Result<Contribution>
  {
    (obj: MeshObject<N>, pointBase: nat, wedgeBase: nat) =>
      if WellFormedMesh(obj) then ObjectContribution(obj, materialNames, options, pointBase, wedgeBase) else Err(AssertionError)
  }

  /**
   * The lists after each object's contribution in turn, starting from
   * `start`, and the warnings they raise; or the first object's error.
   */
  function ObjectsBuilt<N>(objects: seq<MeshObject<N>>, contribute: (MeshObject<N>, nat, nat) -> Result<Contribution>,
                           start: PskLists<real>): Result<(PskLists<real>, seq<string>)>
    decreases |objects|
  {
    if objects == [] then Ok((start, []))
    else
      var n := |objects| - 1;
      match ObjectsBuilt(objects[..n], contribute, start)
      case Err(e) => Err(e)
      case Ok((lists, warnings)) =>
        match contribute(objects[n], |lists.points|, |lists.wedges|)
        case Err(e) => Err(e)
        case Ok(c) => Ok((Extended(lists, c), warnings + c.warnings))
  }

  /** One more object: its contribution appended to what the objects before it built. */
  lemma ObjectsBuiltStep<N>(objects: seq<MeshObject<N>>, k: nat, contribute: (MeshObject<N>, nat, nat) -> Result<Contribution>,
                            start: PskLists<real>, lists: PskLists<real>, warnings: seq<string>)
    requires k < |objects| && ObjectsBuilt(objects[..k], contribute, start) == Ok((lists, warnings))
    ensures var c := contribute(objects[k], |lists.points|, |lists.wedges|);
      ObjectsBuilt(objects[..k + 1], contribute, start)
      == if c.Err? then Err(c.error) else Ok((Extended(lists, c.value), warnings + c.value.warnings))
  {
    assert objects[..k + 1][..k] == objects[..k];
  }

  /** An object that fails stops the build with its error, whatever follows it. */
  lemma {:induction false} ObjectsBuiltStopsAtError<N>(objects: seq<MeshObject<N>>, n: nat,
                                                       contribute: (MeshObject<N>, nat, nat) -> Result<Contribution>, start: PskLists<real>)
    requires n <= |objects| && ObjectsBuilt(objects[..n], contribute, start).Err?
    ensures ObjectsBuilt(objects, contribute, start) == ObjectsBuilt(objects[..n], contribute, start)
    decreases |objects|
  {
    if n < |objects| {
      var front := objects[..|objects| - 1];
      assert front[..n] == objects[..n];
      ObjectsBuiltStopsAtError(front, n, contribute, start);
    } else {
      assert objects[..n] == objects;
    }
  }

  /** The points of the objects, one after the other. */
  function ObjectPoints<N>(objects: seq<MeshObject<N>>): seq<Vector3>
  {
    if objects == [] then [] else ObjectPoints(objects[..|objects| - 1]) + objects[|objects| - 1].points
  }

  /** Every contribution of a build carries its object's points. */
  lemma ContributionOfPoints<N>(materialNames: seq<string>, options: BuildOptions<N>)
    ensures forall obj, pointBase, wedgeBase :: ContributionCarriesPoints(ContributionOf(materialNames, options), obj, pointBase, wedgeBase)
  {
  }

  /** A successful contribution of `obj` holds `obj`'s points. */
  ghost predicate ContributionCarriesPoints<N>(contribute: (MeshObject<N>, nat, nat) -> Result<Contribution>, obj: MeshObject<N>,
                                               pointBase: nat, wedgeBase: nat)
  {
    contribute(obj, pointBase, wedgeBase).Ok? ==> contribute(obj, pointBase, wedgeBase).value.points == obj.points
  }

  /** The objects' loop appends every object's points, in object order. */
  lemma {:induction false} ObjectsBuiltPoints<N>(objects: seq<MeshObject<N>>, contribute: (MeshObject<N>, nat, nat) -> Result<Contribution>,
                                                 start: PskLists<real>)
    requires forall obj, pointBase, wedgeBase :: ContributionCarriesPoints(contribute, obj, pointBase, wedgeBase)
    ensures var r := ObjectsBuilt(objects, contribute, start);
      r.Ok? ==> r.value.0.points == start.points + ObjectPoints(objects)
    decreases |objects|
  {
    if objects != [] {
      var n := |objects| - 1;
      ObjectsBuiltPoints(objects[..n], contribute, start);
      var r := ObjectsBuilt(objects[..n], contribute, start);
      if r.Ok? {
        var lists := r.value.0;
        ObjectsBuiltStep(objects, n, contribute, start, lists, r.value.1);
        assert objects[..n + 1] == objects;
        var c := contribute(objects[n], |lists.points|, |lists.wedges|);
        if c.Ok? {
          assert ContributionCarriesPoints(contribute, objects[n], |lists.points|, |lists.wedges|);
          assert (start.points + ObjectPoints(objects[..n])) + objects[n].points == start.points + ObjectPoints(objects);
        }
      }
    }
  }

  /** The objects' loop leaves the material table and the bones as they were. */
  lemma {:induction false} ObjectsBuiltKeepsTables<N>(objects: seq<MeshObject<N>>, contribute: (MeshObject<N>, nat, nat) -> Result<Contribution>,
                                                      start: PskLists<real>)
    ensures var r := ObjectsBuilt(objects, contribute, start);
      r.Ok? ==> r.value.0.materials == start.materials && r.value.0.bones == start.bones
    decreases |objects|
  {
    if objects != [] {
      ObjectsBuiltKeepsTables(objects[..|objects| - 1], contribute, start);
    }
  }

  /**
   * What `build_psk` returns: the bones given, the material table, each
   * object's contribution in turn and, last, the weights sorted by point
   * and normalised; or the first error on the way.
   */
  function PskBuilt<N>(bones: seq<PsxBone>, materials: Result<seq<Option<BlenderMaterial>>>, objects: seq<MeshObject<N>>,
                       options: BuildOptions<N>): Result<(PskLists<real>, seq<string>)>
  {
    match materials
    case Err(e) => Err(e)
    case Ok(ms) =>
      match MaterialTable(ms)
      case Err(e) => Err(e)
      case Ok(table) =>
        match ObjectsBuilt(objects, ContributionOf(MaterialNames(ms), options), EmptyLists().(bones := bones, materials := table))
        case Err(e) => Err(e)
        case Ok((lists, warnings)) =>
          match Normalized(SortedByPoint(lists.weights))
          case Err(e) => Err(e)
          case Ok(weights) => Ok((lists.(weights := weights), warnings))
  }

  /**
   * A built PSK holds the bones given, the materials' table and the
   * objects' points one after the other.
   */
  lemma PskBuiltLayout<N>(bones: seq<PsxBone>, ms: seq<Option<BlenderMaterial>>, objects: seq<MeshObject<N>>, options: BuildOptions<N>)
    ensures var r := PskBuilt(bones, Ok(ms), objects, options);
      r.Ok? ==> (MaterialTable(ms).Ok? && r.value.0.materials == MaterialTable(ms).value
                 && r.value.0.bones == bones && r.value.0.points == ObjectPoints(objects))
  {
    var table := MaterialTable(ms);
    if table.Ok? {
      var contribute := ContributionOf(MaterialNames(ms), options);
      var start := EmptyLists().(bones := bones, materials := table.value);
      ContributionOfPoints(MaterialNames(ms), options);
      ObjectsBuiltPoints(objects, contribute, start);
      ObjectsBuiltKeepsTables(objects, contribute, start);
      assert start.points == [];
    }
  }

  /** The loop of `build_psk` over the mesh objects: each built in turn, stopping at the first error. */
  method BuildObjects<N>(psk: Psk<real>, objects: seq<MeshObject<N>>, materialNames: seq<string>, options: BuildOptions<N>)
    returns (r: Result<seq<string>>)
    modifies psk
    requires forall i :: 0 <= i < |objects| ==> WellFormedMesh(objects[i])
    ensures var built := ObjectsBuilt(objects, ContributionOf(materialNames, options), old(psk.Contents()));
      && (r.Ok? <==> built.Ok?)
      && (r.Ok? ==> built.value == (psk.Contents(), r.value))
      && (r.Err? ==> r.error == built.error)
  {
    ghost var contribute := ContributionOf(materialNames, options);
    ghost var start := psk.Contents();
    var warnings: seq<string> := [];
    assert objects[..0] == [];
    for k := 0 to |objects|
      invariant ObjectsBuilt(objects[..k], contribute, start) == Ok((psk.Contents(), warnings))
    {
      ghost var lists := psk.Contents();
      ObjectsBuiltStep(objects, k, contribute, start, lists, warnings);
      var objectWarnings := BuildObject(psk, objects[k], materialNames, options);
      if objectWarnings.Err? {
        ObjectsBuiltStopsAtError(objects, k + 1, contribute, start);
        return Err(objectWarnings.error);
      }
      warnings := warnings + objectWarnings.value;
    }
    assert objects[..|objects|] == objects;
    return Ok(warnings);
  }

  /** The part of `build_psk` after the material table: the objects built in turn, then the weights sorted and normalized. */
  method BuildObjectsAndWeights<N>(psk: Psk<real>, objects: seq<MeshObject<N>>, materialNames: seq<string>, options: BuildOptions<N>)
    returns (r: Result<seq<string>>)
    modifies psk
    requires forall i :: 0 <= i < |objects| ==> WellFormedMesh(objects[i])
    ensures match ObjectsBuilt(objects, ContributionOf(materialNames, options), old(psk.Contents()))
      case Err(e) => r == Err(e)
      case Ok((lists, warnings)) =>
        match Normalized(SortedByPoint(lists.weights))
        case Err(e) => r == Err(e)
        case Ok(weights) => r == Ok(warnings) && psk.Contents() == lists.(weights := weights)
  {
    ghost var builtObjects := ObjectsBuilt(objects, ContributionOf(materialNames, options), psk.Contents());
    var objectWarnings := BuildObjects(psk, objects, materialNames, options);
    if objectWarnings.Err? {
      return Err(objectWarnings.error);
    }
    ghost var lists := psk.Contents();
    assert builtObjects == Ok((lists, objectWarnings.value));
    var normalized := SortAndNormalizeWeights(psk);
    if normalized.Err? {
      return Err(normalized.error);
    }
    assert psk.Contents() == lists.(weights := psk.weights);
    return Ok(objectWarnings.value);
  }

  /**
   * `build_psk` from the bones `create_psx_bones` made: the materials to
   * export in the chosen order, their table, each mesh object built in
   * turn, then `sort_and_normalize_weights`.
   */
  method BuildPsk<N>(bones: seq<PsxBone>, materialOrderMode: string, slotLists: seq<SlotList<BlenderMaterial>>,
                     materialNameList: seq<string>, blendMaterials: map<string, BlenderMaterial>,
                     objects: seq<MeshObject<N>>, options: BuildOptions<N>)
    returns (psk: Psk<real>, r: Result<seq<string>>)
    requires forall i :: 0 <= i < |objects| ==> WellFormedMesh(objects[i])
    ensures var expected := PskBuilt(bones, MaterialsToExport(materialOrderMode, slotLists, materialNameList, blendMaterials), objects, options);
      && (r.Ok? <==> expected.Ok?)
      && (r.Ok? ==> psk.Contents() == expected.value.0 && r.value == expected.value.1)
      && (r.Err? ==> r.error == expected.error)
  {
    psk := new Psk<real>();
    psk.bones := bones;
    var materials := MaterialsToExport(materialOrderMode, slotLists, materialNameList, blendMaterials);
    if materials.Err? {
      return psk, Err(materials.error);
    }
    var built := BuildMaterials(psk, materials.value);
    if built.Err? {
      return psk, Err(MaterialTable(materials.value).error);
    }
    assert psk.Contents() == EmptyLists().(bones := bones, materials := MaterialTable(materials.value).value);
    r := BuildObjectsAndWeights(psk, objects, MaterialNames(materials.value), options);
  }
}

// The index logic of the mesh importer, io_scene_psk_psa/psk/importer.py:
// how bone parents are resolved, which faces the mesh keeps and the order
// of their corners, how UV and colour data is laid on those corners, which
// vertex groups are made, how shape keys consume the morph records, and
// which object is the root.
module PskImporter {
  import opened Wrappers
  import opened Bytes
  import opened SharedData
  import opened PskData
  import opened Text
  import opened Seqs

  /** Python's list indexing: a negative index counts from the end. */
  function PyIndex(i: int, n: nat): (r: Option<nat>)
    ensures r.Some? <==> -(n as int) <= i < n
    ensures r.Some? ==> r.value < n && (r.value == i || r.value == i + n)
    ensures 0 <= i < n ==> r == Some(i)
  {
    if 0 <= i < n then Some(i) else if -(n as int) <= i < 0 then Some(i + n) else None
  }

  // ---------------------------------------------------------------------
  // Bones
  // ---------------------------------------------------------------------

  /** `max(0, parent_index)`. */
  function ClampedParent(parentIndex: int): (r: nat)
    ensures parentIndex <= 0 ==> r == 0
    ensures parentIndex >= 0 ==> r == parentIndex
  {
    if parentIndex < 0 then 0 else parentIndex
  }

  /** A bone is the root when it is bone 0 and its clamped parent index is 0. */
  predicate IsRoot(boneIndex: nat, parentIndex: int)
  {
    boneIndex == 0 && ClampedParent(parentIndex) == 0
  }

  /** The bones with their parent indices clamped, as the first bone loop leaves them. */
  function ClampedBones(bones: seq<PsxBone>): (r: seq<PsxBone>)
    ensures |r| == |bones|
    ensures forall i :: 0 <= i < |bones| ==> r[i] == bones[i].(parentIndex := ClampedParent(bones[i].parentIndex))
  {
    seq(|bones|, i requires 0 <= i < |bones| => bones[i].(parentIndex := ClampedParent(bones[i].parentIndex)))
  }

  /**
   * The three bone loops of `import_psk`. The first clamps every parent
   * index in place. The second gives each bone but the root the import
   * bone at its parent index as parent: an IndexError when there is none.
   * The third creates the edit bones in file order and parents each one
   * as it is created, so bone i can only reach edit bones 0..i: a parent
   * index after the bone's own is an IndexError there. The result is each
   * bone's parent, the edit bone it is parented to.
   */
  method ResolveBoneParents<W>(psk: Psk<W>) returns (r: Result<seq<Option<nat>>>)
    modifies psk
    ensures psk.bones == ClampedBones(old(psk.bones))
    ensures psk.Contents() == old(psk.Contents()).(bones := psk.bones)
    ensures r == BoneParents(old(psk.bones))
  {
    ghost var original := psk.bones;
    var bones := ClampedBones(psk.bones);
    psk.bones := bones;
    for boneIndex := 0 to |bones|
      invariant forall i :: 0 <= i < boneIndex ==> !ParentOutOfRange(original, i)
    {
      if bones[boneIndex].parentIndex == 0 && boneIndex == 0 {
        continue;
      }
      if bones[boneIndex].parentIndex >= |bones| {
        assert ParentAhead(original, boneIndex);
        return Err(IndexError);
      }
    }
    var parents: seq<Option<nat>> := [];
    for boneIndex := 0 to |bones|
      invariant |parents| == boneIndex
      invariant forall i :: 0 <= i < boneIndex ==> !ParentAhead(original, i)
      invariant forall i :: 0 <= i < boneIndex ==> parents[i] == ParentOf(original, i)
    {
      if bones[boneIndex].parentIndex == 0 && boneIndex == 0 {
        parents := parents + [None];
        continue;
      }
      if bones[boneIndex].parentIndex > boneIndex {
        assert ParentAhead(original, boneIndex);
        return Err(IndexError);
      }
      parents := parents + [Some(bones[boneIndex].parentIndex)];
    }
    assert parents == seq(|original|, i requires 0 <= i < |original| => ParentOf(original, i));
    return Ok(parents);
  }

  /** A bone other than the root whose parent index names no bone of the file. */
  predicate ParentOutOfRange(bones: seq<PsxBone>, i: nat)
    requires i < |bones|
  {
    !IsRoot(i, bones[i].parentIndex) && ClampedParent(bones[i].parentIndex) >= |bones|
  }

  /** A bone other than the root whose parent index comes after its own (and so may name no bone at all). */
  predicate ParentAhead(bones: seq<PsxBone>, i: nat)
    requires i < |bones|
  {
    !IsRoot(i, bones[i].parentIndex) && ClampedParent(bones[i].parentIndex) > i
  }

  function ParentOf(bones: seq<PsxBone>, i: nat): Option<nat>
    requires i < |bones|
  {
    if IsRoot(i, bones[i].parentIndex) then None else Some(ClampedParent(bones[i].parentIndex))
  }

  /**
   * The parents the bone loops resolve, or the IndexError of a bone whose
   * parent index comes after its own.
   */
  function BoneParents(bones: seq<PsxBone>): (r: Result<seq<Option<nat>>>)
    ensures r.Err? <==> exists i :: 0 <= i < |bones| && ParentAhead(bones, i)
    ensures r.Err? ==> r.error == IndexError
  {
    if exists i :: 0 <= i < |bones| && ParentAhead(bones, i) then Err(IndexError)
    else Ok(seq(|bones|, i requires 0 <= i < |bones| => ParentOf(bones, i)))
  }

  /** A parent index past the last bone is an IndexError. */
  lemma OutOfRangeRaises(bones: seq<PsxBone>, i: nat)
    requires i < |bones| && ParentOutOfRange(bones, i)
    ensures BoneParents(bones) == Err(IndexError)
  {
    assert ParentAhead(bones, i);
  }

  /** Bones [1, 0]: bone 0 names bone 1, whose edit bone does not exist yet. */
  lemma ForwardParentRaises(a: PsxBone, b: PsxBone)
    requires a.parentIndex == 1 && b.parentIndex == 0
    ensures BoneParents([a, b]) == Err(IndexError)
  {
    assert ParentAhead([a, b], 0);
  }

  /**
   * What the resolved parents mean: every parent is the bone itself or a
   * bone before it; bone 0 has no parent exactly when its parent index is
   * 0 or negative; no other bone is a root, and every other bone's parent
   * is its clamped parent index.
   */
  lemma BoneParentsMeaning(bones: seq<PsxBone>)
    requires BoneParents(bones).Ok?
    ensures var parents := BoneParents(bones).value;
      && |parents| == |bones|
      && (forall i :: 0 <= i < |parents| && parents[i].Some? ==> parents[i].value <= i)
      && (|bones| > 0 ==> (parents[0].None? <==> bones[0].parentIndex <= 0))
      && (forall i :: 0 < i < |parents| ==> parents[i] == Some(ClampedParent(bones[i].parentIndex)))
  {
    var parents := BoneParents(bones).value;
    forall i | 0 <= i < |parents| && parents[i].Some? ensures parents[i].value <= i {
      assert !ParentAhead(bones, i);
    }
  }

  // ---------------------------------------------------------------------
  // Faces
  // ---------------------------------------------------------------------

  /** The mesh vertex behind a wedge index: the wedge's point, Python style; None when either does not exist. */
  function CornerPoint(wedges: seq<WedgeEntry>, pointCount: nat, w: int): (r: Option<nat>)
    ensures r.Some? <==> 0 <= w < |wedges| && PyIndex(wedges[w].PointIndex(), pointCount).Some?
    ensures r.Some? ==> r.value < pointCount
  {
    if 0 <= w < |wedges| then PyIndex(wedges[w].PointIndex(), pointCount) else None
  }

  /**
   * The mesh vertices of a face's corners: the points of its wedges 2, 1
   * and 0, in that order; an IndexError when a wedge or a point does not
   * exist.
   */
  function FaceCorners(wedges: seq<WedgeEntry>, pointCount: nat, face: FaceEntry): (r: Result<seq<nat>>)
    ensures r.Err? <==> exists j :: 0 <= j < 3 && CornerPoint(wedges, pointCount, CornerWedgesOfFace(face)[j]).None?
    ensures r.Ok? ==> |r.value| == 3 && forall j :: 0 <= j < 3 ==> CornerPoint(wedges, pointCount, CornerWedgesOfFace(face)[j]) == Some(r.value[j])
  {
    var cw := CornerWedgesOfFace(face);
    var a := CornerPoint(wedges, pointCount, cw[0]);
    var b := CornerPoint(wedges, pointCount, cw[1]);
    var c := CornerPoint(wedges, pointCount, cw[2]);
    if a.None? || b.None? || c.None? then Err(IndexError)
    else Ok([a.value, b.value, c.value])
  }

  /** The vertices a face uses, whatever their order. */
  function PointSet(c: seq<nat>): set<nat>
  {
    set x | x in c
  }

  predicate Distinct3(c: seq<nat>)
    requires |c| == 3
  {
    c[0] != c[1] && c[1] != c[2] && c[0] != c[2]
  }

  /**
   * `bmesh.faces.new` rejects a face whose corners repeat a vertex, or
   * whose vertices are those of a face it already made.
   */
  predicate Rejected(kept: seq<Option<seq<nat>>>, corners: seq<nat>)
    requires |corners| == 3
  {
    !Distinct3(corners) || exists k :: 0 <= k < |kept| && kept[k].Some? && PointSet(kept[k].value) == PointSet(corners)
  }

  /**
   * Every face's corners, or the IndexError of a face whose wedge or point
   * does not exist (the face loop stops there, and the import with it).
   */
  function AllCorners(wedges: seq<WedgeEntry>, pointCount: nat, faces: seq<FaceEntry>): (r: Result<seq<seq<nat>>>)
    ensures r.Err? <==> exists i :: 0 <= i < |faces| && FaceCorners(wedges, pointCount, faces[i]).Err?
    ensures r.Ok? ==> |r.value| == |faces| && forall i :: 0 <= i < |faces| ==> FaceCorners(wedges, pointCount, faces[i]) == Ok(r.value[i])
  {
    if exists i :: 0 <= i < |faces| && FaceCorners(wedges, pointCount, faces[i]).Err? then Err(IndexError)
    else Ok(seq(|faces|, i requires 0 <= i < |faces| => FaceCorners(wedges, pointCount, faces[i]).value))
  }

  lemma AllCornersSnoc(wedges: seq<WedgeEntry>, pointCount: nat, faces: seq<FaceEntry>, k: nat)
    requires k < |faces|
    ensures var prev := AllCorners(wedges, pointCount, faces[..k]);
      var c := FaceCorners(wedges, pointCount, faces[k]);
      AllCorners(wedges, pointCount, faces[..k + 1]) == if prev.Err? || c.Err? then Err(IndexError) else Ok(prev.value + [c.value])
    ensures FaceCorners(wedges, pointCount, faces[k]).Err? ==> AllCorners(wedges, pointCount, faces).Err?
  {
    var p := faces[..k + 1];
    var prev := AllCorners(wedges, pointCount, faces[..k]);
    var c := FaceCorners(wedges, pointCount, faces[k]);
    assert forall i :: 0 <= i < k ==> p[i] == faces[..k][i];
    assert p[k] == faces[k];
    if prev.Ok? && c.Ok? {
      assert AllCorners(wedges, pointCount, p).value == prev.value + [c.value];
    } else if prev.Err? {
      var i :| 0 <= i < k && FaceCorners(wedges, pointCount, faces[..k][i]).Err?;
      assert p[i] == faces[..k][i];
    }
  }

  ghost predicate Triangles(cs: seq<seq<nat>>)
  {
    forall i :: 0 <= i < |cs| ==> |cs[i]| == 3
  }

  /**
   * What the face loop makes of the faces' corners, in order: Some(the
   * corners) when the mesh keeps the face, None when it rejects it.
   */
  function KeptFaces(cs: seq<seq<nat>>): (r: seq<Option<seq<nat>>>)
    requires Triangles(cs)
    ensures |r| == |cs|
  {
    if cs == [] then []
    else
      var n := |cs| - 1;
      var kept := KeptFaces(cs[..n]);
      kept + [if Rejected(kept, cs[n]) then None else Some(cs[n])]
  }

  lemma KeptFacesSnoc(cs: seq<seq<nat>>, c: seq<nat>)
    requires Triangles(cs) && |c| == 3
    ensures Triangles(cs + [c])
    ensures KeptFaces(cs + [c]) == KeptFaces(cs) + [if Rejected(KeptFaces(cs), c) then None else Some(c)]
  {
    assert (cs + [c])[..|cs|] == cs;
  }

  /** The faces the mesh rejected. */
  function InvalidIndices(kept: seq<Option<seq<nat>>>): set<nat>
  {
    set i | 0 <= i < |kept| && kept[i].None?
  }

  lemma InvalidIndicesSnoc(kept: seq<Option<seq<nat>>>, x: Option<seq<nat>>)
    ensures InvalidIndices(kept + [x]) == InvalidIndices(kept) + (if x.None? then {|kept|} else {})
  {
    var l := kept + [x];
    assert forall i :: 0 <= i < |kept| ==> l[i] == kept[i];
  }

  /** The outcomes of the first k faces do not depend on the faces after them. */
  lemma {:induction false} KeptFacesPrefix(cs: seq<seq<nat>>, k: nat)
    requires Triangles(cs) && k <= |cs|
    ensures KeptFaces(cs)[..k] == KeptFaces(cs[..k])
    decreases |cs|
  {
    if k < |cs| {
      var n := |cs| - 1;
      KeptFacesPrefix(cs[..n], k);
      assert cs[..n][..k] == cs[..k];
      assert KeptFaces(cs)[..n] == KeptFaces(cs[..n]);
    } else {
      assert cs[..k] == cs;
    }
  }

  /**
   * What the mesh ends up with: face i is kept, with its corners, exactly
   * when its three vertices are distinct and no face kept before it has the
   * same vertices.
   */
  lemma KeptFacesMeaning(cs: seq<seq<nat>>, i: nat)
    requires Triangles(cs) && i < |cs|
    ensures var kept := KeptFaces(cs);
      kept[i] == if Rejected(kept[..i], cs[i]) then None else Some(cs[i])
  {
    KeptFacesPrefix(cs, i + 1);
    KeptFacesPrefix(cs, i);
    assert cs[..i + 1][..i] == cs[..i];
    assert KeptFaces(cs)[i] == KeptFaces(cs)[..i + 1][i];
  }

  /** No two kept faces have the same vertices, and every kept face has three distinct ones. */
  lemma KeptFacesUnique(cs: seq<seq<nat>>)
    requires Triangles(cs)
    ensures var kept := KeptFaces(cs);
      && (forall i :: 0 <= i < |kept| && kept[i].Some? ==> kept[i].value == cs[i] && Distinct3(cs[i]))
      && (forall i, j :: 0 <= i < j < |kept| && kept[i].Some? && kept[j].Some? ==>
            PointSet(kept[i].value) != PointSet(kept[j].value))
  {
    var kept := KeptFaces(cs);
    forall i | 0 <= i < |kept| && kept[i].Some? ensures kept[i].value == cs[i] && Distinct3(cs[i]) {
      KeptFacesMeaning(cs, i);
    }
    forall i, j | 0 <= i < j < |kept| && kept[i].Some? && kept[j].Some?
      ensures PointSet(kept[i].value) != PointSet(kept[j].value)
    {
      KeptFacesMeaning(cs, j);
      assert kept[..j][i] == kept[i];
    }
  }

  /**
   * The face loop of `import_psk`, returning each face's outcome and the
   * set of invalid face indices; an IndexError when a face's wedge or point
   * does not exist.
   */
  method ImportFaces(wedges: seq<WedgeEntry>, pointCount: nat, faces: seq<FaceEntry>)
    returns (r: Result<(seq<Option<seq<nat>>>, set<nat>)>)
    ensures r.Err? <==> AllCorners(wedges, pointCount, faces).Err?
    ensures r.Err? ==> r.error == IndexError
    ensures r.Ok? ==> (
      && Triangles(AllCorners(wedges, pointCount, faces).value)
      && r.value.0 == KeptFaces(AllCorners(wedges, pointCount, faces).value)
      && r.value.1 == InvalidIndices(r.value.0))
  {
    var kept: seq<Option<seq<nat>>> := [];
    var invalidFaceIndices: set<nat> := {};
    ghost var cs: seq<seq<nat>> := [];
    for faceIndex := 0 to |faces|
      invariant AllCorners(wedges, pointCount, faces[..faceIndex]) == Ok(cs) && Triangles(cs)
      invariant kept == KeptFaces(cs)
      invariant invalidFaceIndices == InvalidIndices(kept)
    {
      var points := FaceCorners(wedges, pointCount, faces[faceIndex]);
      AllCornersSnoc(wedges, pointCount, faces, faceIndex);
      if points.Err? {
        return Err(IndexError);
      }
      KeptFacesSnoc(cs, points.value);
      cs := cs + [points.value];
      kept, invalidFaceIndices := KeepFace(kept, invalidFaceIndices, points.value);
    }
    assert faces[..|faces|] == faces;
    return Ok((kept, invalidFaceIndices));
  }

  /**
   * One face of the loop: a rejected face's index joins the invalid ones,
   * any other face is added to the mesh.
   */
  method KeepFace(kept: seq<Option<seq<nat>>>, invalidFaceIndices: set<nat>, corners: seq<nat>)
    returns (kept': seq<Option<seq<nat>>>, invalidFaceIndices': set<nat>)
    requires |corners| == 3 && invalidFaceIndices == InvalidIndices(kept)
    ensures kept' == kept + [if Rejected(kept, corners) then None else Some(corners)]
    ensures invalidFaceIndices' == InvalidIndices(kept')
    ensures |kept| in invalidFaceIndices' <==> Rejected(kept, corners)
  {
    if Rejected(kept, corners) {
      InvalidIndicesSnoc(kept, None);
      invalidFaceIndices' := invalidFaceIndices + {|kept|};
      kept' := kept + [None];
    } else {
      InvalidIndicesSnoc(kept, Some(corners));
      invalidFaceIndices' := invalidFaceIndices;
      kept' := kept + [Some(corners)];
    }
  }

  /** The warning for the rejected faces: none when every face was kept. */
  function InvalidFacesWarning(invalidFaceIndices: set<nat>): (r: Option<string>)
    ensures r.None? <==> invalidFaceIndices == {}
  {
    if invalidFaceIndices == {} then None
    else Some("Discarded " + DecimalString(|invalidFaceIndices|) + " invalid face(s).")
  }

  // ---------------------------------------------------------------------
  // Face corners: UVs and colours
  // ---------------------------------------------------------------------

  /** A face's wedges in corner order, `reversed(face.wedge_indices)`. */
  function CornerWedgesOfFace(face: FaceEntry): (r: seq<int>)
    ensures |r| == 3 && forall j :: 0 <= j < 3 ==> r[j] == face.WedgeIndices()[2 - j]
  {
    var ws := face.WedgeIndices();
    [ws[2], ws[1], ws[0]]
  }

  /** The wedge behind every corner of the mesh: the kept faces' wedges in corner order, face by face. */
  function CornerWedges(faces: seq<FaceEntry>, kept: seq<Option<seq<nat>>>): (r: seq<int>)
    requires |kept| == |faces|
  {
    if faces == [] then []
    else
      var n := |faces| - 1;
      CornerWedges(faces[..n], kept[..n]) + (if kept[n].Some? then CornerWedgesOfFace(faces[n]) else [])
  }

  /** The number of kept faces. */
  function KeptCount(kept: seq<Option<seq<nat>>>): nat
  {
    if kept == [] then 0 else KeptCount(kept[..|kept| - 1]) + (if kept[|kept| - 1].Some? then 1 else 0)
  }

  /**
   * There are three corners per kept face, and the corners of the k-th kept
   * face (face i) are its wedges 2, 1, 0.
   */
  lemma {:induction false} CornerWedgesLayout(faces: seq<FaceEntry>, kept: seq<Option<seq<nat>>>, i: nat)
    requires |kept| == |faces| && i < |faces| && kept[i].Some?
    ensures |CornerWedges(faces, kept)| == 3 * KeptCount(kept)
    ensures var k := KeptCount(kept[..i]);
      3 * k + 3 <= |CornerWedges(faces, kept)| && CornerWedges(faces, kept)[3 * k..3 * k + 3] == CornerWedgesOfFace(faces[i])
  {
    var n := |faces| - 1;
    assert kept[..n][..|kept[..n]|] == kept[..n];
    CornerWedgesLength(faces[..n], kept[..n]);
    if i < n {
      assert faces[..n][i] == faces[i] && kept[..n][i] == kept[i];
      CornerWedgesLayout(faces[..n], kept[..n], i);
      assert kept[..n][..i] == kept[..i];
    } else {
      assert kept[..i] == kept[..n];
    }
  }

  lemma {:induction false} CornerWedgesLength(faces: seq<FaceEntry>, kept: seq<Option<seq<nat>>>)
    requires |kept| == |faces|
    ensures |CornerWedges(faces, kept)| == 3 * KeptCount(kept)
  {
    if faces != [] {
      CornerWedgesLength(faces[..|faces| - 1], kept[..|kept| - 1]);
    }
  }

  /**
   * The corner loop shared by the UV, extra UV and colour data: the kept
   * faces' wedges in reverse order, face by face.
   */
  method CollectCornerWedges(faces: seq<FaceEntry>, kept: seq<Option<seq<nat>>>) returns (r: seq<int>)
    requires |kept| == |faces|
    ensures r == CornerWedges(faces, kept)
  {
    r := [];
    for faceIndex := 0 to |faces|
      invariant r == CornerWedges(faces[..faceIndex], kept[..faceIndex])
    {
      assert faces[..faceIndex + 1][..faceIndex] == faces[..faceIndex];
      assert kept[..faceIndex + 1][..faceIndex] == kept[..faceIndex];
      if kept[faceIndex].None? {
        continue;
      }
      var ws := faces[faceIndex].WedgeIndices();
      var j := 2;
      ghost var before := r;
      while j >= 0
        invariant -1 <= j <= 2
        invariant r == before + CornerWedgesOfFace(faces[faceIndex])[..2 - j]
      {
        r := r + [ws[j]];
        j := j - 1;
      }
    }
    assert faces[..|faces|] == faces && kept[..|kept|] == kept;
  }

  /** A UV as the importer writes it: (u, 1 - v), given what the stored floats are. */
  function FlippedUv(u: real, v: real): (real, real)
  {
    (u, 1.0 - v)
  }

  /**
   * The 'UVMap' layer: per corner, its wedge's (u, 1 - v); floats are read
   * through toReal, which stands for the conversion of a stored float.
   */
  function UvLayer(wedges: seq<WedgeEntry>, cornerWedges: seq<int>, toReal: F32 -> real): (r: Result<seq<(real, real)>>)
    ensures r.Err? <==> exists j :: 0 <= j < |cornerWedges| && !(0 <= cornerWedges[j] < |wedges|)
    ensures r.Ok? ==> |r.value| == |cornerWedges| && forall j :: 0 <= j < |cornerWedges| ==>
      r.value[j] == FlippedUv(toReal(wedges[cornerWedges[j]].U()), toReal(wedges[cornerWedges[j]].V()))
  {
    if exists j :: 0 <= j < |cornerWedges| && !(0 <= cornerWedges[j] < |wedges|) then Err(IndexError)
    else Ok(seq(|cornerWedges|, j requires 0 <= j < |cornerWedges| && 0 <= cornerWedges[j] < |wedges| =>
      FlippedUv(toReal(wedges[cornerWedges[j]].U()), toReal(wedges[cornerWedges[j]].V()))))
  }

  /** Flipping v twice gives it back: the exporter's and importer's (u, 1 - v) undo each other. */
  lemma FlippedUvInvolution(u: real, v: real)
    ensures var (u1, v1) := FlippedUv(u, v); FlippedUv(u1, v1) == (u, v)
  {
  }

  /**
   * `int(len(psk.extra_uvs) / len(psk.wedges))`: the number of extra UV
   * layers; ZeroDivisionError for a file with no wedges.
   */
  function ExtraUvChannelCount(extraUvCount: nat, wedgeCount: nat): (r: Result<nat>)
    ensures wedgeCount == 0 <==> r.Err?
    ensures r.Ok? ==> r.value * wedgeCount <= extraUvCount < (r.value + 1) * wedgeCount
  {
    if wedgeCount == 0 then Err(ZeroDivisionError) else Ok(extraUvCount / wedgeCount)
  }

  function ExtraUvLayerName(extraUvIndex: nat): string
  {
    "EXTRAUV" + DecimalString(extraUvIndex)
  }

  /**
   * The extra UV layers AS WRITTEN: each layer is named EXTRAUV<n>, but its
   * corners are filled from the wedges' own (u, 1 - v), the primary UVs;
   * the extra UV records and the offset the loop keeps are never read.
   */
  function ExtraUvLayersAsWritten(wedges: seq<WedgeEntry>, extraUvs: seq<Vector2>, cornerWedges: seq<int>, toReal: F32 -> real)
    : (r: Result<seq<(string, seq<(real, real)>)>>)
    requires |extraUvs| > 0
  {
    match ExtraUvChannelCount(|extraUvs|, |wedges|)
    case Err(e) => Err(e)
    case Ok(count) =>
      match UvLayer(wedges, cornerWedges, toReal)
      case Err(e) => if count == 0 then Ok([]) else Err(e)
      case Ok(layer) => Ok(seq(count, i requires 0 <= i < count => (ExtraUvLayerName(i), layer)))
  }

  /**
   * As written, every extra UV layer is a copy of the 'UVMap' layer, and
   * what the extra UV records hold makes no difference.
   */
  lemma ExtraUvLayersCopyPrimary(wedges: seq<WedgeEntry>, extraUvs: seq<Vector2>, otherExtraUvs: seq<Vector2>,
                                 cornerWedges: seq<int>, toReal: F32 -> real)
    requires |extraUvs| > 0 && |otherExtraUvs| == |extraUvs|
    requires ExtraUvLayersAsWritten(wedges, extraUvs, cornerWedges, toReal).Ok?
    ensures ExtraUvLayersAsWritten(wedges, otherExtraUvs, cornerWedges, toReal) == ExtraUvLayersAsWritten(wedges, extraUvs, cornerWedges, toReal)
    ensures var layers := ExtraUvLayersAsWritten(wedges, extraUvs, cornerWedges, toReal).value;
      forall i :: 0 <= i < |layers| ==> Ok(layers[i].1) == UvLayer(wedges, cornerWedges, toReal)
  {
  }

  /**
   * The extra UV layers as intended: layer n reads, for a corner on wedge
   * w, the extra UV record at n * len(wedges) + w (the offset the loop
   * advances by one wedge list per layer), flipped as the primary UVs are.
   */
  function ExtraUvLayers(wedges: seq<WedgeEntry>, extraUvs: seq<Vector2>, cornerWedges: seq<int>, toReal: F32 -> real)
    : (r: Result<seq<(string, seq<(real, real)>)>>)
    requires |extraUvs| > 0
    ensures r.Ok? ==> |wedges| > 0 && |r.value| == |extraUvs| / |wedges|
    ensures r.Ok? ==> forall i :: 0 <= i < |r.value| ==> (
      && r.value[i].0 == ExtraUvLayerName(i)
      && |r.value[i].1| == |cornerWedges|
      && forall j :: 0 <= j < |cornerWedges| ==>
           0 <= cornerWedges[j] < |wedges| && i * |wedges| + cornerWedges[j] < |extraUvs|
           && r.value[i].1[j] == FlippedUv(toReal(extraUvs[i * |wedges| + cornerWedges[j]].x), toReal(extraUvs[i * |wedges| + cornerWedges[j]].y)))
  {
    match ExtraUvChannelCount(|extraUvs|, |wedges|)
    case Err(e) => Err(e)
    case Ok(count) =>
      if count > 0 && exists j :: 0 <= j < |cornerWedges| && !(0 <= cornerWedges[j] < |wedges|) then Err(IndexError)
      else
        Ok(seq(count, i requires 0 <= i < count => (ExtraUvLayerName(i), ExtraUvLayer(wedges, extraUvs, cornerWedges, toReal, i, count))))
  }

  function ExtraUvLayer(wedges: seq<WedgeEntry>, extraUvs: seq<Vector2>, cornerWedges: seq<int>, toReal: F32 -> real, i: nat, count: nat)
    : (r: seq<(real, real)>)
    requires i < count && count * |wedges| <= |extraUvs|
    requires forall j :: 0 <= j < |cornerWedges| ==> 0 <= cornerWedges[j] < |wedges|
    ensures |r| == |cornerWedges|
    ensures forall j :: 0 <= j < |cornerWedges| ==>
      i * |wedges| + cornerWedges[j] < |extraUvs|
      && r[j] == FlippedUv(toReal(extraUvs[i * |wedges| + cornerWedges[j]].x), toReal(extraUvs[i * |wedges| + cornerWedges[j]].y))
  {
    ExtraUvOffsetWithin(i, count, |wedges|);
    seq(|cornerWedges|, j requires 0 <= j < |cornerWedges| =>
      FlippedUv(toReal(extraUvs[i * |wedges| + cornerWedges[j]].x), toReal(extraUvs[i * |wedges| + cornerWedges[j]].y)))
  }

  lemma ExtraUvOffsetWithin(i: nat, count: nat, wedgeCount: nat)
    requires i < count
    ensures i * wedgeCount + wedgeCount <= count * wedgeCount
  {
    assert (i + 1) * wedgeCount <= count * wedgeCount by {
      MulMono(i + 1, count, wedgeCount);
    }
  }

  lemma MulMono(a: nat, b: nat, c: nat)
    requires a <= b
    ensures a * c <= b * c
  {
  }

  /**
   * The discrepancy shown on one mesh: a single wedge with UV (0, 0) and one
   * extra UV (0.5, 0.5), whose single kept face puts that wedge on its
   * corners. The layer as written holds the primary UV; the intended one
   * holds the extra UV.
   */
  lemma ExtraUvsIgnoredExample()
    ensures var wedges := [BuiltWedge(Wedge(0, FLOAT_ZERO, FLOAT_ZERO, 0))];
      var half := F32(0, 0, 0, 0x3F);
      var extraUvs := [Vector2(half, half)];
      var toReal := (f: F32) => if f == half then 0.5 else 0.0;
      var asWritten := ExtraUvLayersAsWritten(wedges, extraUvs, [0, 0, 0], toReal);
      var intended := ExtraUvLayers(wedges, extraUvs, [0, 0, 0], toReal);
      && asWritten.Ok? && intended.Ok?
      && asWritten.value[0].1[0] == (0.0, 1.0)
      && intended.value[0].1[0] == (0.5, 0.5)
  {
    var wedges := [BuiltWedge(Wedge(0, FLOAT_ZERO, FLOAT_ZERO, 0))];
    var half := F32(0, 0, 0, 0x3F);
    var extraUvs := [Vector2(half, half)];
    var toReal := (f: F32) => if f == half then 0.5 else 0.0;
    assert wedges[0].U() == FLOAT_ZERO;
    var layer := UvLayer(wedges, [0, 0, 0], toReal);
    assert layer.Ok?;
    assert ExtraUvChannelCount(|extraUvs|, |wedges|) == Ok(1);
    var intended := ExtraUvLayers(wedges, extraUvs, [0, 0, 0], toReal);
    assert intended.value[0].1[0] == FlippedUv(toReal(extraUvs[0].x), toReal(extraUvs[0].y));
  }

  /**
   * The colour corners: per corner, the vertex colour at its wedge's index;
   * an IndexError when there is no such colour.
   */
  function CornerColors(vertexColors: seq<Color>, cornerWedges: seq<int>): (r: Result<seq<Color>>)
    ensures r.Err? <==> exists j :: 0 <= j < |cornerWedges| && PyIndex(cornerWedges[j], |vertexColors|).None?
    ensures r.Ok? ==> |r.value| == |cornerWedges| && forall j :: 0 <= j < |cornerWedges| && 0 <= cornerWedges[j] ==>
      r.value[j] == vertexColors[cornerWedges[j]]
  {
    if exists j :: 0 <= j < |cornerWedges| && PyIndex(cornerWedges[j], |vertexColors|).None? then Err(IndexError)
    else Ok(seq(|cornerWedges|, j requires 0 <= j < |cornerWedges| && PyIndex(cornerWedges[j], |vertexColors|).Some? =>
      vertexColors[PyIndex(cornerWedges[j], |vertexColors|).value]))
  }

  // ---------------------------------------------------------------------
  // Vertex groups
  // ---------------------------------------------------------------------

  /** The vertex-group slot of a weight: its bone index, Python style. */
  function GroupSlot<W>(boneCount: nat, w: Weight<W>): Option<nat>
  {
    PyIndex(w.boneIndex, boneCount)
  }

  /** What `vertex_group.add` records for a weight: its point and its weight. */
  function AddOf<W>(w: Weight<W>): (int, W)
  {
    (w.pointIndex as int, w.weight)
  }

  /** The adds that go to slot s, in weight order. */
  function GroupAdds<W>(boneCount: nat, weights: seq<Weight<W>>, s: nat): (r: seq<(int, W)>)
  {
    if weights == [] then []
    else
      var n := |weights| - 1;
      GroupAdds(boneCount, weights[..n], s) + (if GroupSlot(boneCount, weights[n]) == Some(s) then [AddOf(weights[n])] else [])
  }

  /** The slots some weight names. */
  function Slots<W>(boneCount: nat, weights: seq<Weight<W>>): set<nat>
  {
    if weights == [] then {}
    else
      var n := |weights| - 1;
      Slots(boneCount, weights[..n]) + (if GroupSlot(boneCount, weights[n]).Some? then {GroupSlot(boneCount, weights[n]).value} else {})
  }

  /** The vertex groups: one per slot some weight names, holding that slot's adds. */
  function Groups<W>(boneCount: nat, weights: seq<Weight<W>>): map<nat, seq<(int, W)>>
  {
    map s | s in Slots(boneCount, weights) :: GroupAdds(boneCount, weights, s)
  }

  /** One more weight adds to its own slot's group, creating it if need be, and changes no other. */
  lemma GroupsSnoc<W>(boneCount: nat, weights: seq<Weight<W>>, k: nat)
    requires k < |weights| && GroupSlot(boneCount, weights[k]).Some?
    ensures var g := Groups(boneCount, weights[..k]);
      var s := GroupSlot(boneCount, weights[k]).value;
      Groups(boneCount, weights[..k + 1]) == g[s := (if s in g then g[s] else []) + [AddOf(weights[k])]]
  {
    var prefix := weights[..k];
    assert weights[..k + 1][..k] == prefix;
    var s := GroupSlot(boneCount, weights[k]).value;
    var g := Groups(boneCount, prefix);
    var g' := Groups(boneCount, weights[..k + 1]);
    var rhs := g[s := (if s in g then g[s] else []) + [AddOf(weights[k])]];
    assert Slots(boneCount, weights[..k + 1]) == Slots(boneCount, prefix) + {s};
    assert g'.Keys == rhs.Keys;
    forall t | t in g' ensures g'[t] == rhs[t] {
      assert GroupAdds(boneCount, weights[..k + 1], t) == GroupAdds(boneCount, prefix, t) + (if t == s then [AddOf(weights[k])] else []);
      if t == s && s !in g {
        UnusedSlotIsEmpty(boneCount, prefix, s);
      }
    }
    assert g' == rhs;
  }

  lemma {:induction false} UnusedSlotIsEmpty<W>(boneCount: nat, weights: seq<Weight<W>>, s: nat)
    requires s !in Slots(boneCount, weights)
    ensures GroupAdds(boneCount, weights, s) == []
  {
    if weights != [] {
      UnusedSlotIsEmpty(boneCount, weights[..|weights| - 1], s);
    }
  }

  /**
   * The weight part of `import_psk`: a group per bone index that some
   * weight names (an IndexError when that index is not a bone), then each
   * weight added to its bone's group, in order.
   */
  method ImportVertexGroups<W>(boneCount: nat, weights: seq<Weight<W>>) returns (r: Result<map<nat, seq<(int, W)>>>)
    ensures r.Err? <==> exists i :: 0 <= i < |weights| && GroupSlot(boneCount, weights[i]).None?
    ensures r.Err? ==> r.error == IndexError
    ensures r.Ok? ==> r.value == Groups(boneCount, weights)
  {
    for k := 0 to |weights|
      invariant forall i :: 0 <= i < k ==> GroupSlot(boneCount, weights[i]).Some?
    {
      if GroupSlot(boneCount, weights[k]).None? {
        return Err(IndexError);
      }
    }
    var groups: map<nat, seq<(int, W)>> := map[];
    for k := 0 to |weights|
      invariant groups == Groups(boneCount, weights[..k])
    {
      GroupsSnoc(boneCount, weights, k);
      var s := GroupSlot(boneCount, weights[k]).value;
      groups := groups[s := (if s in groups then groups[s] else []) + [AddOf(weights[k])]];
    }
    assert weights[..|weights|] == weights;
    return Ok(groups);
  }

  /** There is a group for exactly the slots some weight names. */
  lemma {:induction false} SlotsMeaning<W>(boneCount: nat, weights: seq<Weight<W>>)
    ensures forall s :: s in Groups(boneCount, weights) <==> exists w :: w in weights && GroupSlot(boneCount, w) == Some(s)
  {
    if weights != [] {
      var n := |weights| - 1;
      SlotsMeaning(boneCount, weights[..n]);
      assert weights == weights[..n] + [weights[n]];
    }
  }

  /** Each group holds the adds of exactly the weights on its slot. */
  lemma {:induction false} GroupAddsMembers<W>(boneCount: nat, weights: seq<Weight<W>>, s: nat)
    ensures forall add :: add in GroupAdds(boneCount, weights, s) <==>
      exists w :: w in weights && GroupSlot(boneCount, w) == Some(s) && add == AddOf(w)
  {
    if weights != [] {
      var n := |weights| - 1;
      var prefix := weights[..n];
      GroupAddsMembers(boneCount, prefix, s);
      assert weights == prefix + [weights[n]];
      forall add ensures add in GroupAdds(boneCount, weights, s) <==>
        exists w :: w in weights && GroupSlot(boneCount, w) == Some(s) && add == AddOf(w)
      {
        if add in GroupAdds(boneCount, prefix, s) {
          var w :| w in prefix && GroupSlot(boneCount, w) == Some(s) && add == AddOf(w);
          assert w in weights;
        }
        if exists w :: w in weights && GroupSlot(boneCount, w) == Some(s) && add == AddOf(w) {
          var w :| w in weights && GroupSlot(boneCount, w) == Some(s) && add == AddOf(w);
          if w != weights[n] {
            assert w in prefix;
          }
        }
      }
    }
  }

  // ---------------------------------------------------------------------
  // Shape keys
  // ---------------------------------------------------------------------

  /** A shape key: the base key, or one per morph info with the offsets its records add. */
  datatype ShapeKey =
    | MorphBase
    | MorphKey(name: CharArray64, offsets: seq<(nat, Vector3)>)

  /** `range(vertex_count)` runs max(0, vertex_count) times. */
  function RecordCount(info: MorphInfo): nat
  {
    if info.vertexCount < 0 then 0 else info.vertexCount
  }

  /** The number of records the first k morph infos consume. */
  function RecordsBefore(infos: seq<MorphInfo>, k: nat): nat
    requires k <= |infos|
  {
    if k == 0 then 0 else RecordsBefore(infos, k - 1) + RecordCount(infos[k - 1])
  }

  lemma {:induction false} RecordsBeforeMonotone(infos: seq<MorphInfo>, j: nat, k: nat)
    requires j <= k <= |infos|
    ensures RecordsBefore(infos, j) <= RecordsBefore(infos, k)
    decreases k
  {
    if j < k {
      RecordsBeforeMonotone(infos, j, k - 1);
    }
  }

  /** `-y` on a stored float flips its sign bit. */
  function Negated(f: F32): (r: F32)
    ensures r.b0 == f.b0 && r.b1 == f.b1 && r.b2 == f.b2
    ensures (r.b3 >= 0x80) != (f.b3 >= 0x80) && r.b3 % 0x80 == f.b3 % 0x80
  {
    F32(f.b0, f.b1, f.b2, if f.b3 >= 0x80 then f.b3 - 0x80 else f.b3 + 0x80)
  }

  /** A record's offset: its point, and its delta with y negated. */
  function Offset(data: MorphData, pointCount: nat): Option<(nat, Vector3)>
  {
    match PyIndex(data.pointIndex, pointCount)
    case None => None
    case Some(p) => Some((p, Vector3(data.positionDelta.x, Negated(data.positionDelta.y), data.positionDelta.z)))
  }

  /** Whether consuming record j fails: the records have run out, or its point is not a vertex. */
  predicate RecordFails(morphData: seq<MorphData>, pointCount: nat, j: nat)
  {
    j >= |morphData| || Offset(morphData[j], pointCount).None?
  }

  /** The error of consuming record j: StopIteration when the records have run out, IndexError otherwise. */
  function RecordError(morphData: seq<MorphData>, j: nat): Error
  {
    if j >= |morphData| then StopIteration else IndexError
  }

  /**
   * The shape-key part of `import_psk`: 'MORPH_BASE' first when there are
   * morph infos, then one key per morph info, in order, each consuming the
   * next vertex_count records of the shared iterator. The first record that
   * cannot be consumed ends the import with its error.
   */
  method ImportShapeKeys(morphInfos: seq<MorphInfo>, morphData: seq<MorphData>, pointCount: nat) returns (r: Result<seq<ShapeKey>>)
    ensures var total := RecordsBefore(morphInfos, |morphInfos|);
      r.Err? <==> exists j :: 0 <= j < total && RecordFails(morphData, pointCount, j)
    ensures r.Err? ==> exists j :: (
      && 0 <= j < RecordsBefore(morphInfos, |morphInfos|) && RecordFails(morphData, pointCount, j)
      && (forall j' :: 0 <= j' < j ==> !RecordFails(morphData, pointCount, j'))
      && r.error == RecordError(morphData, j))
    ensures r.Ok? ==> (
      && |r.value| == |morphInfos| + (if |morphInfos| > 0 then 1 else 0)
      && (|morphInfos| > 0 ==> r.value[0] == MorphBase)
      && forall k :: 0 <= k < |morphInfos| ==> ShapeKeyOf(morphInfos, morphData, pointCount, k, r.value[1..][k]))
  {
    var keys: seq<ShapeKey> := [];
    var next := 0;
    for k := 0 to |morphInfos|
      invariant next == RecordsBefore(morphInfos, k) && next <= |morphData|
      invariant forall j :: 0 <= j < next ==> !RecordFails(morphData, pointCount, j)
      invariant |keys| == k
      invariant forall i :: 0 <= i < k ==> ShapeKeyOf(morphInfos, morphData, pointCount, i, keys[i])
    {
      var offsets: seq<(nat, Vector3)> := [];
      for v := 0 to RecordCount(morphInfos[k])
        invariant next + v <= |morphData|
        invariant forall j :: 0 <= j < next + v ==> !RecordFails(morphData, pointCount, j)
        invariant |offsets| == v
        invariant forall i :: 0 <= i < v ==> Offset(morphData[next + i], pointCount) == Some(offsets[i])
      {
        if next + v >= |morphData| || Offset(morphData[next + v], pointCount).None? {
          RecordsBeforeMonotone(morphInfos, k + 1, |morphInfos|);
          assert RecordFails(morphData, pointCount, next + v);
          assert next + v < RecordsBefore(morphInfos, |morphInfos|);
          return Err(RecordError(morphData, next + v));
        }
        offsets := offsets + [Offset(morphData[next + v], pointCount).value];
      }
      keys := keys + [MorphKey(morphInfos[k].name, offsets)];
      next := next + RecordCount(morphInfos[k]);
    }
    if |morphInfos| > 0 {
      assert ([MorphBase] + keys)[1..] == keys;
      return Ok([MorphBase] + keys);
    }
    return Ok([]);
  }

  /**
   * Key k + 1 is the k-th morph info's: its name, and the offsets of the
   * records from the running total before it to the one after it.
   */
  ghost predicate ShapeKeyOf(morphInfos: seq<MorphInfo>, morphData: seq<MorphData>, pointCount: nat, k: nat, key: ShapeKey)
    requires k < |morphInfos|
  {
    var start := RecordsBefore(morphInfos, k);
    && key.MorphKey?
    && key.name == morphInfos[k].name
    && |key.offsets| == RecordCount(morphInfos[k])
    && start + RecordCount(morphInfos[k]) <= |morphData|
    && forall i :: 0 <= i < |key.offsets| ==> Offset(morphData[start + i], pointCount) == Some(key.offsets[i])
  }

  /**
   * The keys consume the records in order and each at most once: key k's
   * records start where key k - 1's end, so no record feeds two keys.
   */
  lemma ShapeKeysConsumeInOrder(morphInfos: seq<MorphInfo>, k: nat)
    requires 0 < k < |morphInfos|
    ensures RecordsBefore(morphInfos, k) == RecordsBefore(morphInfos, k - 1) + RecordCount(morphInfos[k - 1])
    ensures forall j :: 0 <= j < k ==> RecordsBefore(morphInfos, j) + RecordCount(morphInfos[j]) <= RecordsBefore(morphInfos, k)
  {
    forall j | 0 <= j < k ensures RecordsBefore(morphInfos, j) + RecordCount(morphInfos[j]) <= RecordsBefore(morphInfos, k) {
      RecordsBeforeMonotone(morphInfos, j + 1, k);
    }
  }

  // ---------------------------------------------------------------------
  // The imported objects
  // ---------------------------------------------------------------------

  datatype RootObject = ArmatureRoot | MeshRoot

  /**
   * The root of the import, which gets the scale: the armature when one is
   * imported, else the mesh; with neither there is no object and setting
   * its scale fails with an AttributeError.
   */
  function Root(shouldImportArmature: bool, shouldImportMesh: bool): (r: Result<RootObject>)
    ensures r.Err? <==> !shouldImportArmature && !shouldImportMesh
    ensures r.Ok? ==> (r.value == ArmatureRoot <==> shouldImportArmature)
  {
    if shouldImportArmature then Ok(ArmatureRoot)
    else if shouldImportMesh then Ok(MeshRoot)
    else Err(AttributeError)
  }

  /** The root's scale: the option's factor on all three axes. */
  function RootScale(scale: real): (r: (real, real, real))
    ensures r.0 == scale && r.1 == scale && r.2 == scale
  {
    (scale, scale, scale)
  }
}

// The PSK mesh records and the `Psk` container (io_scene_psk_psa/psk/data.py):
// record layouts, the `has_*` properties and the in-place sort and
// normalisation of the vertex weights.
module PskData {
  import opened Bytes
  import opened Wrappers
  import opened SharedData
  import StableSort
  import Seqs

  /* -------------------------------------------------------------- Wedges */

  /** `Psk.Wedge`: the exporter's wedge, holding Python values. */
  datatype Wedge = Wedge(pointIndex: int, u: F32, v: F32, materialIndex: int)

  /** `Psk.Wedge16`: the on-disk wedge with an 8-bit material index. */
  datatype Wedge16 = Wedge16(pointIndex: UInt32, u: F32, v: F32, materialIndex: UInt8, reserved: Int8, padding2: Int16)

  /** `Psk.Wedge32`: the wedge with a 32-bit material index. */
  datatype Wedge32 = Wedge32(pointIndex: UInt32, u: F32, v: F32, materialIndex: UInt32)

  const WEDGE16_SIZE: nat := 16
  const WEDGE32_SIZE: nat := 16

  /**
   * An element of `Psk.wedges`: the exporter stores `Wedge` objects, the
   * reader stores the records it decoded. All of them have the attributes
   * point_index, u, v and material_index.
   */
  datatype WedgeEntry = BuiltWedge(wedge: Wedge) | ReadWedge16(wedge16: Wedge16) | ReadWedge32(wedge32: Wedge32)
  {
    function PointIndex(): int
    {
      match this
      case BuiltWedge(w) => w.pointIndex
      case ReadWedge16(w) => w.pointIndex
      case ReadWedge32(w) => w.pointIndex
    }
    function U(): F32
    {
      match this case BuiltWedge(w) => w.u case ReadWedge16(w) => w.u case ReadWedge32(w) => w.u
    }
    function V(): F32
    {
      match this case BuiltWedge(w) => w.v case ReadWedge16(w) => w.v case ReadWedge32(w) => w.v
    }
    function MaterialIndex(): int
    {
      match this
      case BuiltWedge(w) => w.materialIndex
      case ReadWedge16(w) => w.materialIndex
      case ReadWedge32(w) => w.materialIndex
    }
  }

  /**
   * The key `Wedge.__hash__` renders: point index, u, v and material index.
   * The mesh builder deduplicates wedges by this key, so two wedges share a
   * key exactly when all four attributes agree.
   */
  function WedgeKey(w: Wedge): (int, F32, F32, int)
  {
    (w.pointIndex, w.u, w.v, w.materialIndex)
  }

  lemma WedgeKeyInjective(a: Wedge, b: Wedge)
    ensures WedgeKey(a) == WedgeKey(b) <==> a == b
  {
  }

  /**
   * The Wedge16 that `write_psk` builds from any wedge: the point index and
   * material index are assigned to 32-bit and 8-bit unsigned fields, which
   * keep their low bits; the other fields stay zero.
   */
  function ToWedge16(w: WedgeEntry): (r: Wedge16)
    ensures r.u == w.U() && r.v == w.V() && r.reserved == 0 && r.padding2 == 0
    ensures U32.InRange(w.PointIndex()) ==> r.pointIndex == w.PointIndex()
    ensures U8.InRange(w.MaterialIndex()) ==> r.materialIndex == w.MaterialIndex()
  {
    Wedge16(U32.Wrap(w.PointIndex()), w.U(), w.V(), U8.Wrap(w.MaterialIndex()), 0, 0)
  }

  function EncodeWedge16(w: Wedge16): (r: seq<Byte>)
    ensures |r| == WEDGE16_SIZE
  {
    U32.Encode(w.pointIndex) + EncodeF32(w.u) + EncodeF32(w.v)
    + U8.Encode(w.materialIndex) + I8.Encode(w.reserved) + I16.Encode(w.padding2)
  }

  function DecodeWedge16(s: seq<Byte>): (w: Wedge16)
    requires |s| == WEDGE16_SIZE
    ensures EncodeWedge16(w) == s
  {
    EncodeDecode(U32, s[0..4]); EncodeDecode(U8, s[12..13]);
    EncodeDecode(I8, s[13..14]); EncodeDecode(I16, s[14..16]);
    assert s == s[0..4] + s[4..8] + s[8..12] + s[12..13] + s[13..14] + s[14..16];
    Wedge16(U32.Decode(s[0..4]), DecodeF32(s[4..8]), DecodeF32(s[8..12]),
      U8.Decode(s[12..13]), I8.Decode(s[13..14]), I16.Decode(s[14..16]))
  }

  lemma Wedge16RoundTrip(w: Wedge16)
    ensures DecodeWedge16(EncodeWedge16(w)) == w
  {
    var s := EncodeWedge16(w);
    assert s[0..4] == U32.Encode(w.pointIndex);
    assert s[4..8] == EncodeF32(w.u) && s[8..12] == EncodeF32(w.v);
    assert s[12..13] == U8.Encode(w.materialIndex);
    assert s[13..14] == I8.Encode(w.reserved);
    assert s[14..16] == I16.Encode(w.padding2);
    DecodeEncode(U32, w.pointIndex); DecodeEncode(U8, w.materialIndex);
    DecodeEncode(I8, w.reserved); DecodeEncode(I16, w.padding2);
  }

  function EncodeWedge32(w: Wedge32): (r: seq<Byte>)
    ensures |r| == WEDGE32_SIZE
  {
    U32.Encode(w.pointIndex) + EncodeF32(w.u) + EncodeF32(w.v) + U32.Encode(w.materialIndex)
  }

  function DecodeWedge32(s: seq<Byte>): (w: Wedge32)
    requires |s| == WEDGE32_SIZE
    ensures EncodeWedge32(w) == s
  {
    EncodeDecode(U32, s[0..4]); EncodeDecode(U32, s[12..16]);
    assert s == s[0..4] + s[4..8] + s[8..12] + s[12..16];
    Wedge32(U32.Decode(s[0..4]), DecodeF32(s[4..8]), DecodeF32(s[8..12]), U32.Decode(s[12..16]))
  }

  /* --------------------------------------------------------------- Faces */

  type Corners16 = s: seq<UInt16> | |s| == 3 witness [0, 0, 0]
  type Corners32 = s: seq<UInt32> | |s| == 3 witness [0, 0, 0]

  /** `Psk.Face`: three 16-bit wedge indices. */
  datatype Face = Face(wedgeIndices: Corners16, materialIndex: UInt8, auxMaterialIndex: UInt8, smoothingGroups: Int32)

  /** `Psk.Face32`: three 32-bit wedge indices, packed without padding. */
  datatype Face32 = Face32(wedgeIndices: Corners32, materialIndex: UInt8, auxMaterialIndex: UInt8, smoothingGroups: Int32)

  const FACE_SIZE: nat := 12
  const FACE32_SIZE: nat := 18

  /** An element of `Psk.faces`: a `Face` or, after reading FACE3200, a `Face32`. */
  datatype FaceEntry = Face16Entry(face: Face) | Face32Entry(face32: Face32)
  {
    function WedgeIndices(): (r: seq<int>)
      ensures |r| == 3
    {
      match this case Face16Entry(f) => f.wedgeIndices case Face32Entry(f) => f.wedgeIndices
    }
  }

  function EncodeFace(f: Face): (r: seq<Byte>)
    ensures |r| == FACE_SIZE
  {
    U16.Encode(f.wedgeIndices[0]) + U16.Encode(f.wedgeIndices[1]) + U16.Encode(f.wedgeIndices[2])
    + U8.Encode(f.materialIndex) + U8.Encode(f.auxMaterialIndex) + I32.Encode(f.smoothingGroups)
  }

  function DecodeFace(s: seq<Byte>): (f: Face)
    requires |s| == FACE_SIZE
    ensures EncodeFace(f) == s
  {
    EncodeDecode(U16, s[0..2]); EncodeDecode(U16, s[2..4]); EncodeDecode(U16, s[4..6]);
    EncodeDecode(U8, s[6..7]); EncodeDecode(U8, s[7..8]); EncodeDecode(I32, s[8..12]);
    assert s == s[0..2] + s[2..4] + s[4..6] + s[6..7] + s[7..8] + s[8..12];
    Face([U16.Decode(s[0..2]), U16.Decode(s[2..4]), U16.Decode(s[4..6])],
      U8.Decode(s[6..7]), U8.Decode(s[7..8]), I32.Decode(s[8..12]))
  }

  lemma FaceRoundTrip(f: Face)
    ensures DecodeFace(EncodeFace(f)) == f
  {
    var s := EncodeFace(f);
    assert s[0..2] == U16.Encode(f.wedgeIndices[0]);
    assert s[2..4] == U16.Encode(f.wedgeIndices[1]);
    assert s[4..6] == U16.Encode(f.wedgeIndices[2]);
    assert s[6..7] == U8.Encode(f.materialIndex);
    assert s[7..8] == U8.Encode(f.auxMaterialIndex);
    assert s[8..12] == I32.Encode(f.smoothingGroups);
    DecodeEncode(U16, f.wedgeIndices[0]); DecodeEncode(U16, f.wedgeIndices[1]);
    DecodeEncode(U16, f.wedgeIndices[2]); DecodeEncode(U8, f.materialIndex);
    DecodeEncode(U8, f.auxMaterialIndex); DecodeEncode(I32, f.smoothingGroups);
    assert DecodeFace(s).wedgeIndices == f.wedgeIndices;
  }

  function EncodeFace32(f: Face32): (r: seq<Byte>)
    ensures |r| == FACE32_SIZE
  {
    U32.Encode(f.wedgeIndices[0]) + U32.Encode(f.wedgeIndices[1]) + U32.Encode(f.wedgeIndices[2])
    + U8.Encode(f.materialIndex) + U8.Encode(f.auxMaterialIndex) + I32.Encode(f.smoothingGroups)
  }

  function DecodeFace32(s: seq<Byte>): (f: Face32)
    requires |s| == FACE32_SIZE
    ensures EncodeFace32(f) == s
  {
    EncodeDecode(U32, s[0..4]); EncodeDecode(U32, s[4..8]); EncodeDecode(U32, s[8..12]);
    EncodeDecode(U8, s[12..13]); EncodeDecode(U8, s[13..14]); EncodeDecode(I32, s[14..18]);
    Pieces6(s, 4, 8, 12, 13, 14);
    Face32([U32.Decode(s[0..4]), U32.Decode(s[4..8]), U32.Decode(s[8..12])],
      U8.Decode(s[12..13]), U8.Decode(s[13..14]), I32.Decode(s[14..18]))
  }

  /** What `fp.write(face)` writes: the bytes of whichever record the entry holds. */
  function EncodeFaceEntry(e: FaceEntry): (r: seq<Byte>)
    ensures |r| == if e.Face16Entry? then FACE_SIZE else FACE32_SIZE
  {
    match e case Face16Entry(f) => EncodeFace(f) case Face32Entry(f) => EncodeFace32(f)
  }

  /* ----------------------------------------------------------- Materials */

  datatype Material = Material(
    name: CharArray64,
    textureIndex: Int32,
    polyFlags: Int32,
    auxMaterial: Int32,
    auxFlags: Int32,
    lodBias: Int32,
    lodStyle: Int32)

  const MATERIAL_SIZE: nat := 88

  function EncodeMaterial(m: Material): (r: seq<Byte>)
    ensures |r| == MATERIAL_SIZE
  {
    m.name + I32.Encode(m.textureIndex) + I32.Encode(m.polyFlags) + I32.Encode(m.auxMaterial)
    + I32.Encode(m.auxFlags) + I32.Encode(m.lodBias) + I32.Encode(m.lodStyle)
  }

  function DecodeMaterial(s: seq<Byte>): (m: Material)
    requires |s| == MATERIAL_SIZE
    ensures EncodeMaterial(m) == s
  {
    EncodeDecode(I32, s[64..68]); EncodeDecode(I32, s[68..72]); EncodeDecode(I32, s[72..76]);
    EncodeDecode(I32, s[76..80]); EncodeDecode(I32, s[80..84]); EncodeDecode(I32, s[84..88]);
    assert s == s[0..64] + s[64..68] + s[68..72] + s[72..76] + s[76..80] + s[80..84] + s[84..88];
    Material(s[0..64], I32.Decode(s[64..68]), I32.Decode(s[68..72]), I32.Decode(s[72..76]),
      I32.Decode(s[76..80]), I32.Decode(s[80..84]), I32.Decode(s[84..88]))
  }

  lemma MaterialRoundTrip(m: Material)
    ensures DecodeMaterial(EncodeMaterial(m)) == m
  {
    var s := EncodeMaterial(m);
    assert s[0..64] == m.name;
    assert s[64..68] == I32.Encode(m.textureIndex);
    assert s[68..72] == I32.Encode(m.polyFlags);
    assert s[72..76] == I32.Encode(m.auxMaterial);
    assert s[76..80] == I32.Encode(m.auxFlags);
    assert s[80..84] == I32.Encode(m.lodBias);
    assert s[84..88] == I32.Encode(m.lodStyle);
    DecodeEncode(I32, m.textureIndex); DecodeEncode(I32, m.polyFlags); DecodeEncode(I32, m.auxMaterial);
    DecodeEncode(I32, m.auxFlags); DecodeEncode(I32, m.lodBias); DecodeEncode(I32, m.lodStyle);
  }

  /* ------------------------------------------------------------- Weights */

  /**
   * `Psk.Weight`. The weight value is a type parameter: the file codec
   * carries the stored 32-bit float, the normalisation below works on reals.
   */
  datatype Weight<W> = Weight(weight: W, pointIndex: Int32, boneIndex: Int32)

  const WEIGHT_SIZE: nat := 12

  function EncodeWeight(w: Weight<F32>): (r: seq<Byte>)
    ensures |r| == WEIGHT_SIZE
  {
    EncodeF32(w.weight) + I32.Encode(w.pointIndex) + I32.Encode(w.boneIndex)
  }

  function DecodeWeight(s: seq<Byte>): (w: Weight<F32>)
    requires |s| == WEIGHT_SIZE
    ensures EncodeWeight(w) == s
  {
    EncodeDecode(I32, s[4..8]); EncodeDecode(I32, s[8..12]);
    assert s == s[0..4] + s[4..8] + s[8..12];
    Weight(DecodeF32(s[0..4]), I32.Decode(s[4..8]), I32.Decode(s[8..12]))
  }

  lemma WeightRoundTrip(w: Weight<F32>)
    ensures DecodeWeight(EncodeWeight(w)) == w
  {
    var s := EncodeWeight(w);
    assert s[0..4] == EncodeF32(w.weight);
    assert s[4..8] == I32.Encode(w.pointIndex) && s[8..12] == I32.Encode(w.boneIndex);
    DecodeEncode(I32, w.pointIndex); DecodeEncode(I32, w.boneIndex);
  }

  /* -------------------------------------------------------------- Morphs */

  datatype MorphInfo = MorphInfo(name: CharArray64, vertexCount: Int32)
  datatype MorphData = MorphData(positionDelta: Vector3, tangentZDelta: Vector3, pointIndex: Int32)

  const MORPH_INFO_SIZE: nat := 68
  const MORPH_DATA_SIZE: nat := 28

  function EncodeMorphInfo(m: MorphInfo): (r: seq<Byte>)
    ensures |r| == MORPH_INFO_SIZE
  {
    m.name + I32.Encode(m.vertexCount)
  }

  function EncodeMorphData(m: MorphData): (r: seq<Byte>)
    ensures |r| == MORPH_DATA_SIZE
  {
    EncodeVector3(m.positionDelta) + EncodeVector3(m.tangentZDelta) + I32.Encode(m.pointIndex)
  }

  /** Both wedge layouts take 16 bytes, and a face stores 16-bit wedge indices. */
  lemma WedgeAndFaceLayout(f: Face)
    ensures WEDGE16_SIZE == WEDGE32_SIZE == 16
    ensures forall i :: 0 <= i < 3 ==> 0 <= f.wedgeIndices[i] < 0x1_0000
    ensures EncodeFace(f)[0..6] == U16.Encode(f.wedgeIndices[0]) + U16.Encode(f.wedgeIndices[1]) + U16.Encode(f.wedgeIndices[2])
  {
  }

  /* --------------------------------------------------------- Chunk names */

  const ACTRHEAD: seq<Byte> := [0x41, 0x43, 0x54, 0x52, 0x48, 0x45, 0x41, 0x44]
  const PNTS0000: seq<Byte> := [0x50, 0x4E, 0x54, 0x53, 0x30, 0x30, 0x30, 0x30]
  const VTXW0000: seq<Byte> := [0x56, 0x54, 0x58, 0x57, 0x30, 0x30, 0x30, 0x30]
  const FACE0000: seq<Byte> := [0x46, 0x41, 0x43, 0x45, 0x30, 0x30, 0x30, 0x30]
  const MATT0000: seq<Byte> := [0x4D, 0x41, 0x54, 0x54, 0x30, 0x30, 0x30, 0x30]
  const REFSKELT: seq<Byte> := [0x52, 0x45, 0x46, 0x53, 0x4B, 0x45, 0x4C, 0x54]
  const RAWWEIGHTS: seq<Byte> := [0x52, 0x41, 0x57, 0x57, 0x45, 0x49, 0x47, 0x48, 0x54, 0x53]
  const FACE3200: seq<Byte> := [0x46, 0x41, 0x43, 0x45, 0x33, 0x32, 0x30, 0x30]
  const VERTEXCOLOR: seq<Byte> := [0x56, 0x45, 0x52, 0x54, 0x45, 0x58, 0x43, 0x4F, 0x4C, 0x4F, 0x52]
  /** The prefix of the EXTRAUVS0, EXTRAUVS1, ... chunk names. */
  const EXTRAUVS: seq<Byte> := [0x45, 0x58, 0x54, 0x52, 0x41, 0x55, 0x56, 0x53]
  const VTXNORMS: seq<Byte> := [0x56, 0x54, 0x58, 0x4E, 0x4F, 0x52, 0x4D, 0x53]

  /* ----------------------------------------------------------- Container */

  /** The lists of a `Psk`, as one value. */
  datatype PskLists<W> = PskLists(
    points: seq<Vector3>,
    wedges: seq<WedgeEntry>,
    faces: seq<FaceEntry>,
    materials: seq<Material>,
    weights: seq<Weight<W>>,
    bones: seq<PsxBone>,
    extraUvs: seq<Vector2>,
    vertexColors: seq<Color>,
    vertexNormals: seq<Vector3>,
    morphInfos: seq<MorphInfo>,
    morphData: seq<MorphData>,
    materialReferences: seq<string>)

  /** The lists of a new `Psk`: all empty. */
  function EmptyLists<W>(): PskLists<W>
  {
    PskLists([], [], [], [], [], [], [], [], [], [], [], [])
  }

  /** `Psk`: the lists a mesh file is made of. */
  class Psk<W> {
    var points: seq<Vector3>
    var wedges: seq<WedgeEntry>
    var faces: seq<FaceEntry>
    var materials: seq<Material>
    var weights: seq<Weight<W>>
    var bones: seq<PsxBone>
    var extraUvs: seq<Vector2>
    var vertexColors: seq<Color>
    var vertexNormals: seq<Vector3>
    var morphInfos: seq<MorphInfo>
    var morphData: seq<MorphData>
    var materialReferences: seq<string>

    constructor ()
      ensures Contents() == EmptyLists()
      ensures !HasExtraUvs() && !HasVertexColors() && !HasVertexNormals()
      ensures !HasMaterialReferences() && !HasMorphData()
    {
      points, wedges, faces, materials := [], [], [], [];
      weights, bones, extraUvs, vertexColors := [], [], [], [];
      vertexNormals, morphInfos, morphData, materialReferences := [], [], [], [];
    }

    /** All the lists at once. */
    function Contents(): PskLists<W>
      reads this
    {
      PskLists(points, wedges, faces, materials, weights, bones, extraUvs, vertexColors,
        vertexNormals, morphInfos, morphData, materialReferences)
    }

    predicate HasExtraUvs() reads this { |extraUvs| > 0 }
    predicate HasVertexColors() reads this { |vertexColors| > 0 }
    predicate HasVertexNormals() reads this { |vertexNormals| > 0 }
    predicate HasMaterialReferences() reads this { |materialReferences| > 0 }
    /** Decided by the morph infos, not by the morph data records. */
    predicate HasMorphData() reads this { |morphInfos| > 0 }
  }

  /* ------------------------------------------- Sorting and normalisation */

  function PointIndexOf<W>(w: Weight<W>): int
  {
    w.pointIndex
  }

  /** `self.weights.sort(key=lambda x: x.point_index)`. */
  function SortedByPoint<W>(ws: seq<Weight<W>>): seq<Weight<W>>
  {
    StableSort.SortByKey(ws, PointIndexOf)
  }

  /**
   * The end of the run of records that share ws[start]'s point index,
   * scanning from i on: the inner loop that stops at the first record of
   * another point index.
   */
  function RunEnd<W>(ws: seq<Weight<W>>, start: nat, i: nat): (end: nat)
    requires start < i <= |ws|
    ensures i <= end <= |ws|
    decreases |ws| - i
  {
    if i < |ws| && ws[i].pointIndex == ws[start].pointIndex then RunEnd(ws, start, i + 1) else i
  }

  /** ws[i].weight + ... + ws[j - 1].weight, added left to right. */
  function SumRange(ws: seq<Weight<real>>, i: nat, j: nat): real
    requires i <= j <= |ws|
    decreases j - i
  {
    if i == j then 0.0 else SumRange(ws, i, j - 1) + ws[j - 1].weight
  }

  /** The records ws[i..j] with each weight divided by d. */
  function DividedRange(ws: seq<Weight<real>>, i: nat, j: nat, d: real): (r: seq<Weight<real>>)
    requires i <= j <= |ws| && d != 0.0
    ensures |r| == j - i
  {
    seq(j - i, k requires 0 <= k < j - i => ws[i + k].(weight := ws[i + k].weight / d))
  }

  /**
   * The normalisation loop from index start on: each maximal run of equal
   * point indices is divided by its own sum, and a run that sums to zero
   * raises ZeroDivisionError.
   */
  function NormalizedFrom(ws: seq<Weight<real>>, start: nat): (r: Result<seq<Weight<real>>>)
    requires start <= |ws|
    ensures r.Err? ==> r.error == ZeroDivisionError
    decreases |ws| - start
  {
    if start == |ws| then Ok([])
    else
      var end := RunEnd(ws, start, start + 1);
      var total := SumRange(ws, start, end);
      if total == 0.0 then Err(ZeroDivisionError)
      else Prepend(DividedRange(ws, start, end, total), NormalizedFrom(ws, end))
  }

  /**
   * The records from start on as the normalisation loop leaves them: each
   * run divided by its sum, up to the first run that sums to zero, where
   * the loop raises and that run and the records after it stay as they were.
   */
  function NormalizedUntilZero(ws: seq<Weight<real>>, start: nat): (r: seq<Weight<real>>)
    requires start <= |ws|
    ensures |r| == |ws| - start
    decreases |ws| - start
  {
    if start == |ws| then []
    else
      var end := RunEnd(ws, start, start + 1);
      var total := SumRange(ws, start, end);
      if total == 0.0 then ws[start..]
      else DividedRange(ws, start, end, total) + NormalizedUntilZero(ws, end)
  }

  /**
   * What the loop leaves keeps every record's point index, so weights it
   * sorted stay sorted when it raises.
   */
  lemma {:induction false} UntilZeroKeepsPoints(ws: seq<Weight<real>>, start: nat)
    requires start <= |ws|
    ensures forall k :: 0 <= k < |ws| - start ==> NormalizedUntilZero(ws, start)[k].pointIndex == ws[start + k].pointIndex
    decreases |ws| - start
  {
    if start < |ws| {
      var end := RunEnd(ws, start, start + 1);
      var total := SumRange(ws, start, end);
      if total != 0.0 {
        UntilZeroKeepsPoints(ws, end);
        var divided: seq<Weight<real>> := DividedRange(ws, start, end, total);
        var rest: seq<Weight<real>> := NormalizedUntilZero(ws, end);
        forall k: nat | k < |divided| + |rest|
          ensures (divided + rest)[k].pointIndex == ws[start + k].pointIndex
        {
          if k < |divided| {
            assert (divided + rest)[k] == divided[k] == ws[start + k].(weight := ws[start + k].weight / total);
          } else {
            var j := k - |divided|;
            assert (divided + rest)[k] == rest[j];
            assert rest[j].pointIndex == ws[end + j].pointIndex;
            assert end + j == start + k;
          }
        }
      }
    }
  }

  /** What `sort_and_normalize_weights` leaves in the weights of an already sorted list. */
  function Normalized(ws: seq<Weight<real>>): Result<seq<Weight<real>>>
  {
    NormalizedFrom(ws, 0)
  }

  /**
   * `Psk.sort_and_normalize_weights`: sorts the weights by point index and
   * divides every weight by the sum of the weights of its point index.
   */
  method SortAndNormalizeWeights(psk: Psk<real>) returns (r: Result<()>)
    modifies psk`weights
    ensures r.Ok? ==> Normalized(SortedByPoint(old(psk.weights))) == Ok(psk.weights)
    ensures r.Err? ==> Normalized(SortedByPoint(old(psk.weights))) == Err(r.error)
    ensures r.Err? ==> psk.weights == NormalizedUntilZero(SortedByPoint(old(psk.weights)), 0)
  {
    var weights := SortedByPoint(psk.weights);
    weights, r := NormalizeRuns(weights);
    psk.weights := weights;
  }

  /**
   * The outer loop of `sort_and_normalize_weights` on the sorted weights:
   * the weights as far as it got, and whether it got to the end.
   */
  method NormalizeRuns(sorted: seq<Weight<real>>) returns (weights: seq<Weight<real>>, r: Result<()>)
    ensures r.Ok? ==> Normalized(sorted) == Ok(weights)
    ensures r.Err? ==> Normalized(sorted) == Err(r.error)
    ensures r.Err? ==> weights == NormalizedUntilZero(sorted, 0)
  {
    weights := sorted;
    var weightIndex := 0;
    var weightTotal := |weights|;
    NormalizeStart(sorted);
    assert weights[..0] + NormalizedUntilZero(weights, 0) == NormalizedUntilZero(sorted, 0);
    while weightIndex < weightTotal
      invariant weightIndex <= weightTotal == |weights|
      invariant Normalized(sorted) == Prepend(weights[..weightIndex], NormalizedFrom(weights, weightIndex))
      invariant NormalizedUntilZero(sorted, 0) == weights[..weightIndex] + NormalizedUntilZero(weights, weightIndex)
      decreases weightTotal - weightIndex
    {
      var pointWeightTotal, weightSum := SumOfRun(weights, weightIndex);
      if weightSum == 0.0 {
        NormalizeStepFails(sorted, weights, weightIndex);
        assert weights[..weightIndex] + weights[weightIndex..] == weights;
        return weights, Err(ZeroDivisionError);
      }
      ghost var before := weights;
      weights := DivideRun(weights, weightIndex, weightIndex + pointWeightTotal, weightSum);
      OuterStep(sorted, before, weights, weightIndex, weightIndex + pointWeightTotal, weightSum);
      weightIndex := weightIndex + pointWeightTotal;
    }
    NormalizeDone(sorted, weights);
    return weights, Ok(());
  }

  /** The first inner loop: the length and the sum of the run at start. */
  method SumOfRun(weights: seq<Weight<real>>, start: nat) returns (n: nat, weightSum: real)
    requires start < |weights|
    ensures start + n == RunEnd(weights, start, start + 1)
    ensures weightSum == SumRange(weights, start, start + n)
  {
    var pointIndex := weights[start].pointIndex;
    weightSum := weights[start].weight;
    n := 1;
    var i := start + 1;
    while i < |weights|
      invariant start < i <= |weights|
      invariant n == i - start
      invariant RunEnd(weights, start, i) == RunEnd(weights, start, start + 1)
      invariant weightSum == SumRange(weights, start, i)
    {
      if weights[i].pointIndex != pointIndex {
        break;
      }
      weightSum := weightSum + weights[i].weight;
      n := n + 1;
      i := i + 1;
    }
  }

  /** The second inner loop: divides the weights of weights[start..end] by d. */
  method DivideRun(weights: seq<Weight<real>>, start: nat, end: nat, d: real) returns (r: seq<Weight<real>>)
    requires start <= end <= |weights| && d != 0.0
    ensures |r| == |weights|
    ensures forall k :: 0 <= k < |r| && !(start <= k < end) ==> r[k] == weights[k]
    ensures forall k :: start <= k < end ==> r[k] == weights[k].(weight := weights[k].weight / d)
  {
    r := weights;
    var k := start;
    while k < end
      invariant start <= k <= end
      invariant |r| == |weights|
      invariant forall j :: 0 <= j < |r| && !(start <= j < k) ==> r[j] == weights[j]
      invariant forall j :: start <= j < k ==> r[j] == weights[j].(weight := weights[j].weight / d)
    {
      r := r[k := r[k].(weight := r[k].weight / d)];
      k := k + 1;
    }
  }

  lemma NormalizeStart(ws: seq<Weight<real>>)
    ensures Normalized(ws) == Prepend(ws[..0], NormalizedFrom(ws, 0))
  {
    assert ws[..0] == [];
    assert Normalized(ws).Ok? ==> [] + Normalized(ws).value == Normalized(ws).value;
  }

  lemma NormalizeDone(sorted: seq<Weight<real>>, weights: seq<Weight<real>>)
    requires Normalized(sorted) == Prepend(weights[..|weights|], NormalizedFrom(weights, |weights|))
    ensures Normalized(sorted) == Ok(weights)
  {
    assert weights[..|weights|] == weights;
    assert weights + [] == weights;
  }

  /** A run whose sum is zero makes the whole normalisation fail. */
  lemma NormalizeStepFails(sorted: seq<Weight<real>>, weights: seq<Weight<real>>, start: nat)
    requires start < |weights|
    requires Normalized(sorted) == Prepend(weights[..start], NormalizedFrom(weights, start))
    requires SumRange(weights, start, RunEnd(weights, start, start + 1)) == 0.0
    ensures Normalized(sorted) == Err(ZeroDivisionError)
  {
  }

  /** One pass of the outer loop over a run whose sum is not zero keeps its invariant. */
  lemma OuterStep(sorted: seq<Weight<real>>, before: seq<Weight<real>>, after: seq<Weight<real>>,
                  start: nat, end: nat, d: real)
    requires start < |before| == |after|
    requires end == RunEnd(before, start, start + 1) && d == SumRange(before, start, end) && d != 0.0
    requires forall k :: 0 <= k < |after| && !(start <= k < end) ==> after[k] == before[k]
    requires forall k :: start <= k < end ==> after[k] == before[k].(weight := before[k].weight / d)
    requires Normalized(sorted) == Prepend(before[..start], NormalizedFrom(before, start))
    requires NormalizedUntilZero(sorted, 0) == before[..start] + NormalizedUntilZero(before, start)
    ensures Normalized(sorted) == Prepend(after[..end], NormalizedFrom(after, end))
    ensures NormalizedUntilZero(sorted, 0) == after[..end] + NormalizedUntilZero(after, end)
  {
    var divided := DividedRange(before, start, end, d);
    assert NormalizedFrom(before, start) == Prepend(divided, NormalizedFrom(before, end));
    NormalizedFromAgree(before, after, end);
    DividedPrefix(before, after, start, end, d);
    PrependTwice(before[..start], divided, NormalizedFrom(after, end));
    OuterStepUntilZero(before, after, start, end, d);
  }

  /** The same pass keeps what the loop leaves behind when it raises. */
  lemma OuterStepUntilZero(before: seq<Weight<real>>, after: seq<Weight<real>>, start: nat, end: nat, d: real)
    requires start < end <= |before| == |after| && d != 0.0
    requires end == RunEnd(before, start, start + 1) && d == SumRange(before, start, end)
    requires after[..end] == before[..start] + DividedRange(before, start, end, d)
    requires forall k :: end <= k < |after| ==> after[k] == before[k]
    ensures before[..start] + NormalizedUntilZero(before, start) == after[..end] + NormalizedUntilZero(after, end)
  {
    var divided := DividedRange(before, start, end, d);
    var tail := NormalizedUntilZero(after, end);
    assert NormalizedUntilZero(before, start) == divided + tail by {
      UntilZeroAgree(before, after, end);
    }
    assert before[..start] + (divided + tail) == (before[..start] + divided) + tail;
  }

  /** What the loop leaves from start on depends only on the records from start on. */
  lemma {:induction false} UntilZeroAgree(a: seq<Weight<real>>, b: seq<Weight<real>>, start: nat)
    requires start <= |a| == |b|
    requires forall k :: start <= k < |a| ==> a[k] == b[k]
    ensures NormalizedUntilZero(a, start) == NormalizedUntilZero(b, start)
    decreases |a| - start
  {
    if start < |a| {
      var end := RunEnd(a, start, start + 1);
      RunEndAgree(a, b, start, start + 1);
      SumRangeAgree(a, b, start, end);
      var total := SumRange(a, start, end);
      if total != 0.0 {
        assert DividedRange(a, start, end, total) == DividedRange(b, start, end, total);
        UntilZeroAgree(a, b, end);
      } else {
        assert a[start..] == b[start..];
      }
    }
  }

  lemma DividedPrefix(before: seq<Weight<real>>, after: seq<Weight<real>>, start: nat, end: nat, d: real)
    requires start <= end <= |before| == |after| && d != 0.0
    requires forall k :: 0 <= k < start ==> after[k] == before[k]
    requires forall k :: start <= k < end ==> after[k] == before[k].(weight := before[k].weight / d)
    ensures after[..end] == before[..start] + DividedRange(before, start, end, d)
  {
  }

  lemma PrependTwice<T>(a: seq<T>, b: seq<T>, r: Result<seq<T>>)
    ensures Prepend(a, Prepend(b, r)) == Prepend(a + b, r)
  {
    if r.Ok? {
      assert a + (b + r.value) == (a + b) + r.value;
    }
  }

  /** The normalisation from start on reads only the records from start on. */
  lemma {:induction false} NormalizedFromAgree(a: seq<Weight<real>>, b: seq<Weight<real>>, start: nat)
    requires start <= |a| == |b|
    requires forall k :: start <= k < |a| ==> a[k] == b[k]
    ensures NormalizedFrom(a, start) == NormalizedFrom(b, start)
    decreases |a| - start
  {
    if start < |a| {
      var end := RunEnd(a, start, start + 1);
      RunEndAgree(a, b, start, start + 1);
      SumRangeAgree(a, b, start, end);
      var total := SumRange(a, start, end);
      if total != 0.0 {
        assert DividedRange(a, start, end, total) == DividedRange(b, start, end, total);
        NormalizedFromAgree(a, b, end);
      }
    }
  }

  lemma {:induction false} RunEndAgree<W>(a: seq<Weight<W>>, b: seq<Weight<W>>, start: nat, i: nat)
    requires start < i <= |a| == |b|
    requires forall k :: start <= k < |a| ==> a[k].pointIndex == b[k].pointIndex
    ensures RunEnd(a, start, i) == RunEnd(b, start, i)
    decreases |a| - i
  {
    if i < |a| && a[i].pointIndex == a[start].pointIndex {
      RunEndAgree(a, b, start, i + 1);
    }
  }

  lemma {:induction false} SumRangeAgree(a: seq<Weight<real>>, b: seq<Weight<real>>, i: nat, j: nat)
    requires i <= j <= |a| == |b|
    requires forall k :: i <= k < j ==> a[k].weight == b[k].weight
    ensures SumRange(a, i, j) == SumRange(b, i, j)
    decreases j - i
  {
    if i < j {
      SumRangeAgree(a, b, i, j - 1);
    }
  }

  /* ---------------------------------------------- Properties of the runs */

  /** s begins a maximal run of records sharing one point index. */
  predicate RunStart<W>(ws: seq<Weight<W>>, s: nat)
  {
    s < |ws| && (s == 0 || ws[s - 1].pointIndex != ws[s].pointIndex)
  }

  lemma {:induction false} RunEndScan<W>(ws: seq<Weight<W>>, start: nat, i: nat)
    requires start < i <= |ws|
    requires forall k :: start <= k < i ==> ws[k].pointIndex == ws[start].pointIndex
    ensures forall k :: start <= k < RunEnd(ws, start, i) ==> ws[k].pointIndex == ws[start].pointIndex
    ensures RunEnd(ws, start, i) < |ws| ==> ws[RunEnd(ws, start, i)].pointIndex != ws[start].pointIndex
    decreases |ws| - i
  {
    if i < |ws| && ws[i].pointIndex == ws[start].pointIndex {
      RunEndScan(ws, start, i + 1);
    }
  }

  /**
   * The run that starts at s: every record in it has ws[s]'s point index,
   * the record after it has another one, so a new run starts there.
   */
  lemma RunEndOfStart<W>(ws: seq<Weight<W>>, s: nat)
    requires s < |ws|
    ensures s < RunEnd(ws, s, s + 1)
    ensures forall k :: s <= k < RunEnd(ws, s, s + 1) ==> ws[k].pointIndex == ws[s].pointIndex
    ensures RunEnd(ws, s, s + 1) == |ws| || RunStart(ws, RunEnd(ws, s, s + 1))
  {
    RunEndScan(ws, s, s + 1);
  }

  /** Every record lies in the run of some run start. */
  lemma {:induction false} RunContaining<W>(ws: seq<Weight<W>>, k: nat) returns (s: nat)
    requires k < |ws|
    ensures RunStart(ws, s) && s <= k < RunEnd(ws, s, s + 1)
  {
    if RunStart(ws, k) {
      s := k;
      RunEndOfStart(ws, s);
    } else {
      s := RunContaining(ws, k - 1);
      RunEndOfStart(ws, s);
    }
  }

  /** The records of the run starting at s, and only those, are divided by the run's sum. */
  predicate RunNormalized(ws: seq<Weight<real>>, out: seq<Weight<real>>, s: nat)
    requires s < |ws| == |out|
  {
    var e := RunEnd(ws, s, s + 1);
    var d := SumRange(ws, s, e);
    d != 0.0 && forall k :: s <= k < e ==> out[k] == ws[k].(weight := ws[k].weight / d)
  }

  lemma {:induction false} NormalizedFromRuns(ws: seq<Weight<real>>, start: nat,
                                              prefix: seq<Weight<real>>, out: seq<Weight<real>>)
    requires start == |ws| || RunStart(ws, start)
    requires |prefix| == start
    requires Prepend(prefix, NormalizedFrom(ws, start)) == Ok(out)
    ensures |out| == |ws| && out[..start] == prefix
    ensures forall s: nat :: start <= s && RunStart(ws, s) ==> RunNormalized(ws, out, s)
    decreases |ws| - start
  {
    if start == |ws| {
      assert out == prefix + [];
    } else {
      var e := RunEnd(ws, start, start + 1);
      RunEndOfStart(ws, start);
      var d := SumRange(ws, start, e);
      var divided := DividedRange(ws, start, e, d);
      PrependTwice(prefix, divided, NormalizedFrom(ws, e));
      NormalizedFromRuns(ws, e, prefix + divided, out);
      PrefixOfPrefix(out, prefix, divided);
      forall s: nat | start <= s && RunStart(ws, s)
        ensures RunNormalized(ws, out, s)
      {
        if s == start {
          FirstRunNormalized(ws, out, start, d);
        } else if s < e {
          NoRunStartInside(ws, start, s);
          assert false;
        }
      }
    }
  }

  lemma FirstRunNormalized(ws: seq<Weight<real>>, out: seq<Weight<real>>, start: nat, d: real)
    requires start < |ws| == |out|
    requires d == SumRange(ws, start, RunEnd(ws, start, start + 1)) && d != 0.0
    requires forall k :: start <= k < RunEnd(ws, start, start + 1) ==>
      out[k] == DividedRange(ws, start, RunEnd(ws, start, start + 1), d)[k - start]
    ensures RunNormalized(ws, out, start)
  {
  }

  lemma NoRunStartInside<W>(ws: seq<Weight<W>>, start: nat, s: nat)
    requires start < s < |ws|
    requires s < RunEnd(ws, start, start + 1)
    ensures !RunStart(ws, s)
  {
    RunEndOfStart(ws, start);
    assert ws[s - 1].pointIndex == ws[s].pointIndex;
  }

  lemma PrefixOfPrefix<T>(out: seq<T>, a: seq<T>, b: seq<T>)
    requires |a + b| <= |out| && out[..|a + b|] == a + b
    ensures out[..|a|] == a
    ensures forall k :: |a| <= k < |a| + |b| ==> out[k] == b[k - |a|]
  {
    assert out[..|a|] == out[..|a + b|][..|a|];
  }

  lemma {:induction false} NormalizedFromOk(ws: seq<Weight<real>>, start: nat)
    requires start == |ws| || RunStart(ws, start)
    requires forall s: nat :: start <= s && RunStart(ws, s) ==> SumRange(ws, s, RunEnd(ws, s, s + 1)) != 0.0
    ensures NormalizedFrom(ws, start).Ok?
    decreases |ws| - start
  {
    if start < |ws| {
      RunEndOfStart(ws, start);
      NormalizedFromOk(ws, RunEnd(ws, start, start + 1));
    }
  }

  /**
   * Normalisation succeeds exactly when no run of equal point indices sums
   * to zero; it then keeps the number of records, their point and bone
   * indices, and divides the weights of each run by the run's own sum.
   */
  lemma NormalizedSpec(ws: seq<Weight<real>>)
    ensures Normalized(ws).Ok?
      <==> forall s: nat :: RunStart(ws, s) ==> SumRange(ws, s, RunEnd(ws, s, s + 1)) != 0.0
    ensures Normalized(ws).Ok? ==>
      var out := Normalized(ws).value;
      |out| == |ws| && forall s: nat :: RunStart(ws, s) ==> RunNormalized(ws, out, s)
  {
    if Normalized(ws).Ok? {
      var out := Normalized(ws).value;
      assert Prepend([], NormalizedFrom(ws, 0)) == Ok(out) by {
        assert [] + out == out;
      }
      NormalizedFromRuns(ws, 0, [], out);
    } else if forall s: nat :: RunStart(ws, s) ==> SumRange(ws, s, RunEnd(ws, s, s + 1)) != 0.0 {
      NormalizedFromOk(ws, 0);
    }
  }

  /* ----------------------------------------- What normalisation achieves */

  lemma DivisionDistributes(a: real, b: real, d: real)
    requires d != 0.0
    ensures a / d + b / d == (a + b) / d
  {
  }

  lemma {:induction false} SumRangeDivided(ws: seq<Weight<real>>, out: seq<Weight<real>>, i: nat, j: nat, d: real)
    requires i <= j <= |ws| == |out| && d != 0.0
    requires forall k :: i <= k < j ==> out[k].weight == ws[k].weight / d
    ensures SumRange(out, i, j) == SumRange(ws, i, j) / d
    decreases j - i
  {
    if i < j {
      SumRangeDivided(ws, out, i, j - 1, d);
      DivisionDistributes(SumRange(ws, i, j - 1), ws[j - 1].weight, d);
    }
  }

  /** Normalisation changes only the weight of each record. */
  lemma NormalizedKeepsRecords(ws: seq<Weight<real>>)
    requires Normalized(ws).Ok?
    ensures |Normalized(ws).value| == |ws|
    ensures forall k :: 0 <= k < |ws| ==>
      Normalized(ws).value[k] == ws[k].(weight := Normalized(ws).value[k].weight)
  {
    NormalizedSpec(ws);
    var out := Normalized(ws).value;
    forall k | 0 <= k < |ws|
      ensures out[k] == ws[k].(weight := out[k].weight)
    {
      var s := RunContaining(ws, k);
      assert RunNormalized(ws, out, s);
    }
  }

  /** After normalisation the weights of every run sum to one. */
  lemma NormalizedRunsSumToOne(ws: seq<Weight<real>>)
    requires Normalized(ws).Ok?
    ensures |Normalized(ws).value| == |ws|
    ensures forall s: nat :: RunStart(ws, s) ==>
      SumRange(Normalized(ws).value, s, RunEnd(ws, s, s + 1)) == 1.0
  {
    NormalizedSpec(ws);
    var out := Normalized(ws).value;
    forall s: nat | RunStart(ws, s)
      ensures SumRange(out, s, RunEnd(ws, s, s + 1)) == 1.0
    {
      RunSumsToOne(ws, out, s);
    }
  }

  lemma RunSumsToOne(ws: seq<Weight<real>>, out: seq<Weight<real>>, s: nat)
    requires s < |ws| == |out| && RunNormalized(ws, out, s)
    ensures SumRange(out, s, RunEnd(ws, s, s + 1)) == 1.0
  {
    var e := RunEnd(ws, s, s + 1);
    var d := SumRange(ws, s, e);
    SumRangeDivided(ws, out, s, e, d);
    assert d / d == 1.0;
  }

  /** Normalising the result of a normalisation changes nothing. */
  lemma NormalizeIdempotent(ws: seq<Weight<real>>)
    requires Normalized(ws).Ok?
    ensures Normalized(Normalized(ws).value) == Normalized(ws)
  {
    var out := Normalized(ws).value;
    NormalizedKeepsRecords(ws);
    NormalizedRunsSumToOne(ws);
    SameRuns(ws, out);
    NormalizedSpec(out);
    var again := Normalized(out).value;
    forall k | 0 <= k < |out|
      ensures again[k] == out[k]
    {
      var s := RunContaining(out, k);
      DividedByOne(out, again, s, k);
    }
    assert again == out;
  }

  /** A record whose run sums to one is left as it is. */
  lemma DividedByOne(out: seq<Weight<real>>, again: seq<Weight<real>>, s: nat, k: nat)
    requires s <= k < |out| == |again|
    requires k < RunEnd(out, s, s + 1)
    requires RunNormalized(out, again, s) && SumRange(out, s, RunEnd(out, s, s + 1)) == 1.0
    ensures again[k] == out[k]
  {
    assert again[k] == out[k].(weight := out[k].weight / 1.0);
  }

  /** Two lists with the same point indices have the same runs. */
  lemma SameRuns(ws: seq<Weight<real>>, out: seq<Weight<real>>)
    requires |out| == |ws|
    requires forall k :: 0 <= k < |ws| ==> out[k] == ws[k].(weight := out[k].weight)
    requires forall s: nat :: RunStart(ws, s) ==> SumRange(out, s, RunEnd(ws, s, s + 1)) == 1.0
    ensures forall s: nat :: RunStart(out, s) ==> SumRange(out, s, RunEnd(out, s, s + 1)) == 1.0
  {
    forall s: nat | RunStart(out, s)
      ensures SumRange(out, s, RunEnd(out, s, s + 1)) == 1.0
    {
      assert RunStart(ws, s);
      RunEndAgree(out, ws, s, s + 1);
    }
  }

  lemma BeforeRun<W>(ws: seq<Weight<W>>, s: nat, k: nat)
    requires StableSort.SortedByKey(ws, PointIndexOf) && RunStart(ws, s) && k < s
    ensures ws[k].pointIndex < ws[s].pointIndex
  {
    assert PointIndexOf(ws[k]) <= PointIndexOf(ws[s - 1]) <= PointIndexOf(ws[s]);
  }

  lemma AfterRun<W>(ws: seq<Weight<W>>, s: nat, k: nat)
    requires StableSort.SortedByKey(ws, PointIndexOf) && s < |ws| && RunEnd(ws, s, s + 1) <= k < |ws|
    ensures ws[k].pointIndex > ws[s].pointIndex
  {
    RunEndOfStart(ws, s);
    var e := RunEnd(ws, s, s + 1);
    assert PointIndexOf(ws[s]) <= PointIndexOf(ws[e]) <= PointIndexOf(ws[k]);
  }

  /** In a list sorted by point index, a run holds every record of its point index. */
  lemma SortedRunIsPoint<W>(ws: seq<Weight<W>>, s: nat)
    requires StableSort.SortedByKey(ws, PointIndexOf) && RunStart(ws, s)
    ensures forall k :: 0 <= k < |ws| ==>
      (ws[k].pointIndex == ws[s].pointIndex <==> s <= k < RunEnd(ws, s, s + 1))
  {
    RunEndOfStart(ws, s);
    forall k | 0 <= k < |ws| && !(s <= k < RunEnd(ws, s, s + 1))
      ensures ws[k].pointIndex != ws[s].pointIndex
    {
      if k < s {
        BeforeRun(ws, s, k);
      } else {
        AfterRun(ws, s, k);
      }
    }
  }

  /** The (point_index, bone_index) pair of a weight record. */
  function IndexPair<W>(w: Weight<W>): (int, int)
  {
    (w.pointIndex, w.boneIndex)
  }

  /** A list with the point indices of a sorted list is sorted too. */
  lemma SortedByPointIndices<W>(ws: seq<Weight<W>>, out: seq<Weight<W>>)
    requires StableSort.SortedByKey(ws, PointIndexOf) && |out| == |ws|
    requires forall k :: 0 <= k < |ws| ==> out[k].pointIndex == ws[k].pointIndex
    ensures StableSort.SortedByKey(out, PointIndexOf)
  {
    forall i, j | 0 <= i < j < |out|
      ensures PointIndexOf(out[i]) <= PointIndexOf(out[j])
    {
      assert PointIndexOf(ws[i]) <= PointIndexOf(ws[j]);
    }
  }

  /**
   * What `sort_and_normalize_weights` leaves behind: the records ordered by
   * point index, only their weights changed, and the records of each point
   * index forming one run whose weights sum to one.
   */
  lemma SortAndNormalizeSpec(ws: seq<Weight<real>>)
    requires Normalized(SortedByPoint(ws)).Ok?
    ensures var out := Normalized(SortedByPoint(ws)).value;
      |out| == |ws| && StableSort.SortedByKey(out, PointIndexOf)
    ensures var out := Normalized(SortedByPoint(ws)).value;
      multiset(Seqs.Map(out, IndexPair)) == multiset(Seqs.Map(ws, IndexPair))
    ensures var out := Normalized(SortedByPoint(ws)).value;
      forall s: nat :: RunStart(out, s) ==>
        SumRange(out, s, RunEnd(out, s, s + 1)) == 1.0 &&
        forall j :: 0 <= j < |out| ==> (out[j].pointIndex == out[s].pointIndex <==> s <= j < RunEnd(out, s, s + 1))
  {
    var sorted := SortedByPoint(ws);
    var out := Normalized(sorted).value;
    NormalizedKeepsRecords(sorted);
    NormalizedRunsSumToOne(sorted);
    SortedByPointIndices(sorted, out);
    SameRuns(sorted, out);
    assert Seqs.Map(out, IndexPair) == Seqs.Map(sorted, IndexPair);
    StableSort.MapSortByKey(ws, PointIndexOf, IndexPair);
    forall s: nat | RunStart(out, s)
      ensures forall j :: 0 <= j < |out| ==> (out[j].pointIndex == out[s].pointIndex <==> s <= j < RunEnd(out, s, s + 1))
    {
      SortedRunIsPoint(out, s);
    }
  }
}

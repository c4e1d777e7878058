// The records shared by PSK and PSA files (io_scene_psk_psa/shared/data.py):
// their field order, byte layout and iteration order, and the 32-byte chunk
// header `Section`.
module SharedData {
  import opened Bytes

  // A `c_char * 20` and a `c_char * 64` field, kept as all of their bytes.
  type CharArray20 = s: seq<Byte> | |s| == 20 witness Zeros(20)
  type CharArray64 = s: seq<Byte> | |s| == 64 witness Zeros(64)

  /* ---------------------------------------------------------------- Color */

  datatype Color = Color(r: UInt8, g: UInt8, b: UInt8, a: UInt8)

  const COLOR_SIZE: nat := 4

  /** `Color.__iter__`: the components r, g, b, a. */
  function ColorComponents(c: Color): (r: seq<int>)
    ensures |r| == 4
  {
    [c.r, c.g, c.b, c.a]
  }

  /** `Color.__eq__`: it agrees with value equality and with equal iteration. */
  function ColorEquals(c: Color, d: Color): (eq: bool)
    ensures eq <==> c == d
    ensures eq <==> ColorComponents(c) == ColorComponents(d)
  {
    c.r == d.r && c.g == d.g && c.b == d.b && c.a == d.a
  }

  function EncodeColor(c: Color): (r: seq<Byte>)
    ensures |r| == COLOR_SIZE
  {
    U8.Encode(c.r) + U8.Encode(c.g) + U8.Encode(c.b) + U8.Encode(c.a)
  }

  function DecodeColor(s: seq<Byte>): (c: Color)
    requires |s| == COLOR_SIZE
    ensures EncodeColor(c) == s
  {
    EncodeDecode(U8, s[0..1]); EncodeDecode(U8, s[1..2]);
    EncodeDecode(U8, s[2..3]); EncodeDecode(U8, s[3..4]);
    assert s == s[0..1] + s[1..2] + s[2..3] + s[3..4];
    Color(U8.Decode(s[0..1]), U8.Decode(s[1..2]), U8.Decode(s[2..3]), U8.Decode(s[3..4]))
  }

  lemma ColorRoundTrip(c: Color)
    ensures DecodeColor(EncodeColor(c)) == c
  {
    var s := EncodeColor(c);
    assert s[0..1] == U8.Encode(c.r) && s[1..2] == U8.Encode(c.g);
    assert s[2..3] == U8.Encode(c.b) && s[3..4] == U8.Encode(c.a);
    DecodeEncode(U8, c.r); DecodeEncode(U8, c.g); DecodeEncode(U8, c.b); DecodeEncode(U8, c.a);
  }

  /* -------------------------------------------------------------- Vectors */

  datatype Vector2 = Vector2(x: F32, y: F32)
  datatype Vector3 = Vector3(x: F32, y: F32, z: F32)

  const VECTOR2_SIZE: nat := 8
  const VECTOR3_SIZE: nat := 12

  function Vector3Components(v: Vector3): (r: seq<F32>)
    ensures |r| == 3
  {
    [v.x, v.y, v.z]
  }

  /** `Vector3.zero()`. */
  function Vector3Zero(): Vector3
  {
    Vector3(FLOAT_ZERO, FLOAT_ZERO, FLOAT_ZERO)
  }

  function EncodeVector2(v: Vector2): (r: seq<Byte>)
    ensures |r| == VECTOR2_SIZE
  {
    EncodeF32(v.x) + EncodeF32(v.y)
  }

  function DecodeVector2(s: seq<Byte>): (v: Vector2)
    requires |s| == VECTOR2_SIZE
    ensures EncodeVector2(v) == s
  {
    assert s == s[0..4] + s[4..8];
    Vector2(DecodeF32(s[0..4]), DecodeF32(s[4..8]))
  }

  lemma Vector2RoundTrip(v: Vector2)
    ensures DecodeVector2(EncodeVector2(v)) == v
  {
    var s := EncodeVector2(v);
    assert s[0..4] == EncodeF32(v.x) && s[4..8] == EncodeF32(v.y);
  }

  function EncodeVector3(v: Vector3): (r: seq<Byte>)
    ensures |r| == VECTOR3_SIZE
  {
    EncodeF32(v.x) + EncodeF32(v.y) + EncodeF32(v.z)
  }

  function DecodeVector3(s: seq<Byte>): (v: Vector3)
    requires |s| == VECTOR3_SIZE
    ensures EncodeVector3(v) == s
  {
    assert s == s[0..4] + s[4..8] + s[8..12];
    Vector3(DecodeF32(s[0..4]), DecodeF32(s[4..8]), DecodeF32(s[8..12]))
  }

  lemma Vector3RoundTrip(v: Vector3)
    ensures DecodeVector3(EncodeVector3(v)) == v
  {
    var s := EncodeVector3(v);
    assert s[0..4] == EncodeF32(v.x) && s[4..8] == EncodeF32(v.y) && s[8..12] == EncodeF32(v.z);
  }

  /** `Vector3.zero()` iterates as three zeros and is stored as twelve zero bytes. */
  lemma Vector3ZeroLayout()
    ensures Vector3Components(Vector3Zero()) == [FLOAT_ZERO, FLOAT_ZERO, FLOAT_ZERO]
    ensures EncodeVector3(Vector3Zero()) == Zeros(VECTOR3_SIZE)
  {
  }

  /* ----------------------------------------------------------- Quaternion */

  /** Stored in the order x, y, z, w. */
  datatype Quaternion = Quaternion(x: F32, y: F32, z: F32, w: F32)

  const QUATERNION_SIZE: nat := 16

  /** `Quaternion.__iter__`: w first, then x, y, z. */
  function QuaternionComponents(q: Quaternion): (r: seq<F32>)
    ensures |r| == 4
  {
    [q.w, q.x, q.y, q.z]
  }

  /** `Quaternion.identity()`: stores (0, 0, 0, 1). */
  function QuaternionIdentity(): Quaternion
  {
    Quaternion(FLOAT_ZERO, FLOAT_ZERO, FLOAT_ZERO, FLOAT_ONE)
  }

  function EncodeQuaternion(q: Quaternion): (r: seq<Byte>)
    ensures |r| == QUATERNION_SIZE
  {
    EncodeF32(q.x) + EncodeF32(q.y) + EncodeF32(q.z) + EncodeF32(q.w)
  }

  function DecodeQuaternion(s: seq<Byte>): (q: Quaternion)
    requires |s| == QUATERNION_SIZE
    ensures EncodeQuaternion(q) == s
  {
    assert s == s[0..4] + s[4..8] + s[8..12] + s[12..16];
    Quaternion(DecodeF32(s[0..4]), DecodeF32(s[4..8]), DecodeF32(s[8..12]), DecodeF32(s[12..16]))
  }

  lemma QuaternionRoundTrip(q: Quaternion)
    ensures DecodeQuaternion(EncodeQuaternion(q)) == q
  {
    var s := EncodeQuaternion(q);
    assert s[0..4] == EncodeF32(q.x) && s[4..8] == EncodeF32(q.y);
    assert s[8..12] == EncodeF32(q.z) && s[12..16] == EncodeF32(q.w);
  }

  /**
   * Storage and iteration differ by a rotation: w is iterated first but
   * stored last. The identity iterates as (1, 0, 0, 0).
   */
  lemma QuaternionStorageVersusIteration(q: Quaternion)
    ensures var it := QuaternionComponents(q);
      EncodeQuaternion(q) == EncodeF32(it[1]) + EncodeF32(it[2]) + EncodeF32(it[3]) + EncodeF32(it[0])
    ensures QuaternionComponents(QuaternionIdentity()) == [FLOAT_ONE, FLOAT_ZERO, FLOAT_ZERO, FLOAT_ZERO]
  {
  }

  /* -------------------------------------------------------------- PsxBone */

  datatype PsxBone = PsxBone(
    name: CharArray64,
    flags: Int32,
    childrenCount: Int32,
    parentIndex: Int32,
    rotation: Quaternion,
    location: Vector3,
    length: F32,
    size: Vector3)

  const PSX_BONE_SIZE: nat := 120

  function EncodePsxBone(b: PsxBone): (r: seq<Byte>)
    ensures |r| == PSX_BONE_SIZE
  {
    b.name + I32.Encode(b.flags) + I32.Encode(b.childrenCount) + I32.Encode(b.parentIndex)
    + EncodeQuaternion(b.rotation) + EncodeVector3(b.location) + EncodeF32(b.length)
    + EncodeVector3(b.size)
  }

  function DecodePsxBone(s: seq<Byte>): (b: PsxBone)
    requires |s| == PSX_BONE_SIZE
    ensures EncodePsxBone(b) == s
  {
    EncodeDecode(I32, s[64..68]); EncodeDecode(I32, s[68..72]); EncodeDecode(I32, s[72..76]);
    assert s == s[0..64] + s[64..68] + s[68..72] + s[72..76] + s[76..92] + s[92..104]
      + s[104..108] + s[108..120];
    PsxBone(s[0..64], I32.Decode(s[64..68]), I32.Decode(s[68..72]), I32.Decode(s[72..76]),
      DecodeQuaternion(s[76..92]), DecodeVector3(s[92..104]), DecodeF32(s[104..108]),
      DecodeVector3(s[108..120]))
  }

  lemma PsxBoneSizeSlice(b: PsxBone)
    ensures EncodePsxBone(b)[108..120] == EncodeVector3(b.size)
  {
    var pre := b.name + I32.Encode(b.flags) + I32.Encode(b.childrenCount) + I32.Encode(b.parentIndex)
      + EncodeQuaternion(b.rotation) + EncodeVector3(b.location) + EncodeF32(b.length);
    var e := EncodeVector3(b.size);
    assert |pre| == 108;
    assert EncodePsxBone(b) == pre + e;
    assert (pre + e)[108..120] == e;
  }

  lemma PsxBoneRoundTrip(b: PsxBone)
    ensures DecodePsxBone(EncodePsxBone(b)) == b
  {
    var s := EncodePsxBone(b);
    assert s[0..64] == b.name;
    assert s[64..68] == I32.Encode(b.flags);
    assert s[68..72] == I32.Encode(b.childrenCount);
    assert s[72..76] == I32.Encode(b.parentIndex);
    assert s[76..92] == EncodeQuaternion(b.rotation);
    assert s[92..104] == EncodeVector3(b.location);
    assert s[104..108] == EncodeF32(b.length);
    PsxBoneSizeSlice(b);
    DecodeEncode(I32, b.flags); DecodeEncode(I32, b.childrenCount); DecodeEncode(I32, b.parentIndex);
    QuaternionRoundTrip(b.rotation); Vector3RoundTrip(b.location); Vector3RoundTrip(b.size);
  }

  /* -------------------------------------------------------------- Section */

  /** The chunk header: a 20-byte name and three 32-bit integers. */
  datatype Section = Section(name: CharArray20, typeFlags: Int32, dataSize: Int32, dataCount: Int32)

  const SECTION_SIZE: nat := 32
  const SECTION_TYPE_FLAGS: int := 1999801

  /** `Section()` followed by `section.name = name`. */
  function NewSection(name: seq<Byte>): Section
    requires |name| <= 20
  {
    Section(CharArray(name, 20), SECTION_TYPE_FLAGS, 0, 0)
  }

  function EncodeSection(h: Section): (r: seq<Byte>)
    ensures |r| == SECTION_SIZE
  {
    h.name + I32.Encode(h.typeFlags) + I32.Encode(h.dataSize) + I32.Encode(h.dataCount)
  }

  function DecodeSection(s: seq<Byte>): (h: Section)
    requires |s| == SECTION_SIZE
    ensures EncodeSection(h) == s
  {
    EncodeDecode(I32, s[20..24]); EncodeDecode(I32, s[24..28]); EncodeDecode(I32, s[28..32]);
    assert s == s[0..20] + s[20..24] + s[24..28] + s[28..32];
    Section(s[0..20], I32.Decode(s[20..24]), I32.Decode(s[24..28]), I32.Decode(s[28..32]))
  }

  lemma SectionRoundTrip(h: Section)
    ensures DecodeSection(EncodeSection(h)) == h
  {
    var s := EncodeSection(h);
    assert s[0..20] == h.name;
    assert s[20..24] == I32.Encode(h.typeFlags);
    assert s[24..28] == I32.Encode(h.dataSize);
    assert s[28..32] == I32.Encode(h.dataCount);
    DecodeEncode(I32, h.typeFlags); DecodeEncode(I32, h.dataSize); DecodeEncode(I32, h.dataCount);
  }

  /**
   * A new header: the given name reads back, type_flags is 1999801 and
   * data_size and data_count are 0; on disk that is the name padded with
   * NULs to 20 bytes, then 1999801, 0 and 0 as little-endian 32-bit values.
   */
  lemma NewSectionLayout(name: seq<Byte>)
    requires |name| <= 20 && 0 !in name
    ensures CharArrayValue(NewSection(name).name) == name
    ensures NewSection(name).typeFlags == 1999801
    ensures NewSection(name).dataSize == 0 && NewSection(name).dataCount == 0
    ensures EncodeSection(NewSection(name))
      == CharArray(name, 20) + [0xB9, 0x83, 0x1E, 0x00] + Zeros(8)
  {
    CharArrayRoundTrip(name, 20);
    assert 1999801 == 0xB9 + 256 * (0x83 + 256 * 0x1E);
    assert I32.Encode(0) == Zeros(4);
  }
}

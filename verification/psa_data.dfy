// The PSA animation records and the `Psa` container
// (io_scene_psk_psa/psa/data.py): the sequence and key layouts, the order in
// which a key yields its values, and the empty container.
module PsaData {
  import opened Bytes
  import opened SharedData
  import OrderedDict

  /* ------------------------------------------------------------ Sequence */

  /** `Psa.Sequence`: one animation's header record in the ANIMINFO chunk. */
  datatype Sequence = Sequence(
    name: CharArray64,
    group: CharArray64,
    boneCount: Int32,
    rootInclude: Int32,
    compressionStyle: Int32,
    keyQuotum: Int32,
    keyReduction: F32,
    trackTime: F32,
    fps: F32,
    startBone: Int32,
    frameStartIndex: Int32,
    frameCount: Int32)

  const SEQUENCE_SIZE: nat := 168

  function EncodeSequence(q: Sequence): (r: seq<Byte>)
    ensures |r| == SEQUENCE_SIZE
  {
    q.name + q.group
    + EncodeI32s([q.boneCount, q.rootInclude, q.compressionStyle, q.keyQuotum])
    + EncodeF32s([q.keyReduction, q.trackTime, q.fps])
    + EncodeI32s([q.startBone, q.frameStartIndex, q.frameCount])
  }

  function DecodeSequence(s: seq<Byte>): (q: Sequence)
    requires |s| == SEQUENCE_SIZE
    ensures EncodeSequence(q) == s
  {
    var counts := DecodeI32s(s[128..144]);
    var times := DecodeF32s(s[144..156]);
    var frames := DecodeI32s(s[156..168]);
    assert s == s[0..64] + s[64..128] + s[128..144] + s[144..156] + s[156..168];
    assert counts == [counts[0], counts[1], counts[2], counts[3]];
    assert times == [times[0], times[1], times[2]];
    assert frames == [frames[0], frames[1], frames[2]];
    Sequence(s[0..64], s[64..128], counts[0], counts[1], counts[2], counts[3],
      times[0], times[1], times[2], frames[0], frames[1], frames[2])
  }

  lemma SequenceRoundTrip(q: Sequence)
    ensures DecodeSequence(EncodeSequence(q)) == q
  {
    var s := EncodeSequence(q);
    var counts := [q.boneCount, q.rootInclude, q.compressionStyle, q.keyQuotum];
    var times := [q.keyReduction, q.trackTime, q.fps];
    var frames := [q.startBone, q.frameStartIndex, q.frameCount];
    assert s[0..64] == q.name && s[64..128] == q.group;
    assert s[128..144] == EncodeI32s(counts);
    assert s[144..156] == EncodeF32s(times);
    assert s[156..168] == EncodeI32s(frames);
    I32sRoundTrip(counts);
    F32sRoundTrip(times);
    I32sRoundTrip(frames);
  }

  /** The key under which the reader files a sequence: its name up to the first NUL. */
  function SequenceKey(q: Sequence): seq<Byte>
  {
    CharArrayValue(q.name)
  }

  /* ----------------------------------------------------------------- Key */

  /** `Psa.Key`: one bone's pose in one frame. */
  datatype Key = Key(location: Vector3, rotation: Quaternion, time: F32)

  const KEY_SIZE: nat := 32

  function EncodeKey(k: Key): (r: seq<Byte>)
    ensures |r| == KEY_SIZE
  {
    EncodeVector3(k.location) + EncodeQuaternion(k.rotation) + EncodeF32(k.time)
  }

  function DecodeKey(s: seq<Byte>): (k: Key)
    requires |s| == KEY_SIZE
    ensures EncodeKey(k) == s
  {
    assert s == s[0..12] + s[12..28] + s[28..32];
    Key(DecodeVector3(s[0..12]), DecodeQuaternion(s[12..28]), DecodeF32(s[28..32]))
  }

  lemma KeyRoundTrip(k: Key)
    ensures DecodeKey(EncodeKey(k)) == k
  {
    var s := EncodeKey(k);
    assert s[0..12] == EncodeVector3(k.location);
    assert s[12..28] == EncodeQuaternion(k.rotation);
    assert s[28..32] == EncodeF32(k.time);
    Vector3RoundTrip(k.location);
    QuaternionRoundTrip(k.rotation);
  }

  /** `Key.data`: the rotation w, x, y, z, then the location x, y, z. */
  function KeyData(k: Key): (d: seq<F32>)
    ensures |d| == 7
    ensures d[..4] == QuaternionComponents(k.rotation)
    ensures d[4..] == Vector3Components(k.location)
  {
    [k.rotation.w, k.rotation.x, k.rotation.y, k.rotation.z,
     k.location.x, k.location.y, k.location.z]
  }

  /** The byte offset inside a key record of the i-th value of `Key.data`. */
  function KeyDataOffset(i: nat): nat
    requires i < 7
  {
    [24, 12, 16, 20, 0, 4, 8][i]
  }

  /**
   * The seven values of `Key.data`, read from a stored key record: the
   * rotation's w comes first although it is stored last, and the location,
   * stored first, comes last; the time is not among them.
   */
  lemma KeyDataLayout(s: seq<Byte>)
    requires |s| == KEY_SIZE
    ensures forall i :: 0 <= i < 7 ==>
      EncodeF32(KeyData(DecodeKey(s))[i]) == s[KeyDataOffset(i)..KeyDataOffset(i) + 4]
  {
    var k := DecodeKey(s);
    assert EncodeKey(k) == s;
    assert s[0..12] == EncodeVector3(k.location);
    assert s[12..28] == EncodeQuaternion(k.rotation);
  }

  /* --------------------------------------------------------- Chunk names */

  const ANIMHEAD: seq<Byte> := [0x41, 0x4E, 0x49, 0x4D, 0x48, 0x45, 0x41, 0x44]
  const BONENAMES: seq<Byte> := [0x42, 0x4F, 0x4E, 0x45, 0x4E, 0x41, 0x4D, 0x45, 0x53]
  const ANIMINFO: seq<Byte> := [0x41, 0x4E, 0x49, 0x4D, 0x49, 0x4E, 0x46, 0x4F]
  const ANIMKEYS: seq<Byte> := [0x41, 0x4E, 0x49, 0x4D, 0x4B, 0x45, 0x59, 0x53]

  /* ----------------------------------------------------------- Container */

  /** The contents of a `Psa`, as one value. */
  datatype PsaLists = PsaLists(
    bones: seq<PsxBone>,
    sequences: OrderedDict.Dict<seq<Byte>, Sequence>,
    keys: seq<Key>)

  /** The contents of a new `Psa`: no bones, no sequences, no keys. */
  function EmptyPsa(): (p: PsaLists)
    ensures p.bones == [] && p.keys == []
    ensures p.sequences.Valid() && p.sequences.Keys() == []
  {
    PsaLists([], OrderedDict.Empty(), [])
  }

  /**
   * `Psa`: the bones, the sequences by name in insertion order, and the
   * keys (the reader leaves the keys in the file). Names are kept as the
   * bytes of the name field.
   */
  class Psa {
    var bones: seq<PsxBone>
    var sequences: OrderedDict.Dict<seq<Byte>, Sequence>
    var keys: seq<Key>

    constructor ()
      ensures Contents() == EmptyPsa()
    {
      bones := [];
      sequences := OrderedDict.Empty();
      keys := [];
    }

    function Contents(): PsaLists
      reads this
    {
      PsaLists(bones, sequences, keys)
    }
  }
}

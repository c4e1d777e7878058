// `write_psa` (io_scene_psk_psa/psa/writer.py): the four chunks of an
// animation file, in their fixed order. Unlike write_psk there are no count
// limits.
module PsaWriter {
  import opened Bytes
  import opened Wrappers
  import opened SharedData
  import opened Seqs
  import opened Chunks
  import opened PsaData

  /** The arguments of the ANIMHEAD call: a name and nothing else. */
  function AnimHeadChunk(): ChunkOut
  {
    ChunkOut(ANIMHEAD, None, None)
  }

  /** The BONENAMES call: the bones, in list order. */
  function BoneNamesChunk(p: PsaLists): ChunkOut
  {
    ChunkOut(BONENAMES, Some(PSX_BONE_SIZE), Some(Map(p.bones, EncodePsxBone)))
  }

  /** The ANIMINFO call: `list(psa.sequences.values())`, in insertion order. */
  function AnimInfoChunk(p: PsaLists): ChunkOut
  {
    ChunkOut(ANIMINFO, Some(SEQUENCE_SIZE), Some(Map(p.sequences.Values(), EncodeSequence)))
  }

  /** The ANIMKEYS call: the keys, in list order. */
  function AnimKeysChunk(p: PsaLists): ChunkOut
  {
    ChunkOut(ANIMKEYS, Some(KEY_SIZE), Some(Map(p.keys, EncodeKey)))
  }

  /** The bytes write_psa puts in the file. */
  function PsaFile(p: PsaLists): seq<Byte>
  {
    ChunkBytes(AnimHeadChunk()) + ChunkBytes(BoneNamesChunk(p))
    + ChunkBytes(AnimInfoChunk(p)) + ChunkBytes(AnimKeysChunk(p))
  }

  /** `write_psa`: the four `write_section` calls, one after the other. */
  method WritePsa(psa: Psa) returns (bytes: seq<Byte>)
    ensures bytes == PsaFile(psa.Contents())
  {
    var p := psa.Contents();
    var fp := new Stream();
    WriteChunk(fp, AnimHeadChunk());
    assert fp.bytes == ChunkBytes(AnimHeadChunk());
    WriteChunk(fp, BoneNamesChunk(p));
    WriteChunk(fp, AnimInfoChunk(p));
    WriteChunk(fp, AnimKeysChunk(p));
    bytes := fp.bytes;
  }

  /** One `write_section` call with the arguments ch. */
  method WriteChunk(fp: Stream, ch: ChunkOut)
    modifies fp
    ensures fp.bytes == old(fp.bytes) + ChunkBytes(ch)
  {
    WriteSection(fp, ch.name, ch.recordSize, ch.records);
  }

  /** Where the ANIMINFO and ANIMKEYS chunks of a written file start. */
  function AnimInfoAt(p: PsaLists): nat
  {
    SECTION_SIZE + SECTION_SIZE + PSX_BONE_SIZE * |p.bones|
  }

  function AnimKeysAt(p: PsaLists): nat
  {
    AnimInfoAt(p) + SECTION_SIZE + SEQUENCE_SIZE * |p.sequences.entries|
  }

  /** The lists whose sizes and counts fit the 32-bit signed header fields. */
  predicate Fits(p: PsaLists)
  {
    |p.bones| < 0x8000_0000 && |p.sequences.entries| < 0x8000_0000 && |p.keys| < 0x8000_0000
  }

  /** The ANIMHEAD chunk is its header alone, which names it and declares no records. */
  lemma HeadChunkBytes()
    ensures ChunkBytes(AnimHeadChunk()) == EncodeSection(ChunkHeader(AnimHeadChunk()))
    ensures var h := ChunkHeader(AnimHeadChunk());
      CharArrayValue(h.name) == ANIMHEAD && h.dataSize == 0 && h.dataCount == 0
  {
    assert 0 !in ANIMHEAD;
    SectionWithoutRecords(ANIMHEAD, None);
  }

  /** A chunk with records: its header names it and declares their number, and is followed by them. */
  lemma RecordChunk(ch: ChunkOut)
    requires 0 !in ch.name && ch.recordSize.Some? && ch.records.Some?
    requires ch.recordSize.value < 0x8000_0000 && |ch.records.value| < 0x8000_0000
    requires forall i :: 0 <= i < |ch.records.value| ==> |ch.records.value[i]| == ch.recordSize.value
    ensures |ChunkBytes(ch)| == SECTION_SIZE + ch.recordSize.value * |ch.records.value|
    ensures ChunkBytes(ch) == EncodeSection(ChunkHeader(ch)) + Concat(ch.records.value)
    ensures var h := ChunkHeader(ch);
      CharArrayValue(h.name) == ch.name && h.dataSize == ch.recordSize.value && h.dataCount == |ch.records.value|
  {
    SectionWithRecords(ch.name, ch.recordSize.value, ch.records.value);
  }
}

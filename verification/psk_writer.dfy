// `write_psk` (io_scene_psk_psa/psk/writer.py): the count limits checked
// before anything is written, then the chunks in their fixed order.
module PskWriter {
  import opened Bytes
  import opened Wrappers
  import opened SharedData
  import opened Seqs
  import opened Chunks
  import opened PskData
  import opened Text

  const MAX_WEDGE_COUNT: nat := 65536
  const MAX_POINT_COUNT: nat := 4294967296
  const MAX_BONE_COUNT: nat := 2147483647
  const MAX_MATERIAL_COUNT: nat := 256

  const WEDGE_LIMIT_TEXT := ") exceeds limit of 65536"
  const POINT_LIMIT_TEXT := ") exceeds limit of 4294967296"
  const MATERIAL_LIMIT_TEXT := ") exceeds limit of 256"
  const BONE_LIMIT_TEXT := ") exceeds limit of 2147483647"
  const NO_BONES_TEXT := "At least one bone must be marked for export"

  /** The first limit a mesh breaks, in the order write_psk checks them. */
  function LimitError(c: PskLists<F32>): Option<Error>
  {
    if |c.wedges| > MAX_WEDGE_COUNT then
      Some(RuntimeError("Number of wedges (" + DecimalString(|c.wedges|) + WEDGE_LIMIT_TEXT))
    else if |c.points| > MAX_POINT_COUNT then
      Some(RuntimeError("Numbers of vertices (" + DecimalString(|c.points|) + POINT_LIMIT_TEXT))
    else if |c.materials| > MAX_MATERIAL_COUNT then
      Some(RuntimeError("Number of materials (" + DecimalString(|c.materials|) + MATERIAL_LIMIT_TEXT))
    else if |c.bones| > MAX_BONE_COUNT then
      Some(RuntimeError("Number of bones (" + DecimalString(|c.bones|) + BONE_LIMIT_TEXT))
    else if |c.bones| == 0 then
      Some(RuntimeError(NO_BONES_TEXT))
    else
      None
  }

  /** How many sections write_psk writes: VTXNORMS only when there are normals. */
  function PskChunkCount(c: PskLists<F32>): nat
  {
    if |c.vertexNormals| > 0 then 8 else 7
  }

  /** The arguments of the k-th `_write_section` call of write_psk. */
  function PskChunk(c: PskLists<F32>, k: nat): ChunkOut
  {
    match k
    case 0 => ChunkOut(ACTRHEAD, None, None)
    case 1 => ChunkOut(PNTS0000, Some(VECTOR3_SIZE), Some(Map(c.points, EncodeVector3)))
    case 2 => ChunkOut(VTXW0000, Some(WEDGE16_SIZE), Some(Map(Map(c.wedges, ToWedge16), EncodeWedge16)))
    case 3 => ChunkOut(FACE0000, Some(FACE_SIZE), Some(Map(c.faces, EncodeFaceEntry)))
    case 4 => ChunkOut(MATT0000, Some(MATERIAL_SIZE), Some(Map(c.materials, EncodeMaterial)))
    case 5 => ChunkOut(REFSKELT, Some(PSX_BONE_SIZE), Some(Map(c.bones, EncodePsxBone)))
    case 6 => ChunkOut(RAWWEIGHTS, Some(WEIGHT_SIZE), Some(Map(c.weights, EncodeWeight)))
    case _ => ChunkOut(VTXNORMS, Some(VECTOR3_SIZE), Some(Map(c.vertexNormals, EncodeVector3)))
  }

  /** The `_write_section` calls of write_psk, in order. */
  function PskChunks(c: PskLists<F32>): (r: seq<ChunkOut>)
    ensures |r| == PskChunkCount(c)
    ensures forall k :: 0 <= k < |r| ==> r[k] == PskChunk(c, k)
  {
    seq(PskChunkCount(c), k requires 0 <= k => PskChunk(c, k))
  }

  /** The bytes write_psk puts in the file, or the error it raises first. */
  function PskFile(c: PskLists<F32>): Result<seq<Byte>>
  {
    match LimitError(c)
    case Some(e) => Err(e)
    case None => Ok(Concat(Map(PskChunks(c), ChunkBytes)))
  }

  /** `write_psk`: the returned bytes are what the file receives. */
  method WritePsk(psk: Psk<F32>) returns (r: Result<seq<Byte>>)
    ensures r == PskFile(psk.Contents())
  {
    if |psk.wedges| > MAX_WEDGE_COUNT {
      return Err(RuntimeError("Number of wedges (" + DecimalString(|psk.wedges|) + WEDGE_LIMIT_TEXT));
    }
    if |psk.points| > MAX_POINT_COUNT {
      return Err(RuntimeError("Numbers of vertices (" + DecimalString(|psk.points|) + POINT_LIMIT_TEXT));
    }
    if |psk.materials| > MAX_MATERIAL_COUNT {
      return Err(RuntimeError("Number of materials (" + DecimalString(|psk.materials|) + MATERIAL_LIMIT_TEXT));
    }
    if |psk.bones| > MAX_BONE_COUNT {
      return Err(RuntimeError("Number of bones (" + DecimalString(|psk.bones|) + BONE_LIMIT_TEXT));
    }
    if |psk.bones| == 0 {
      return Err(RuntimeError(NO_BONES_TEXT));
    }
    var bytes := WriteChunks(psk.Contents());
    ChunksBytesAll(psk.Contents());
    return Ok(bytes);
  }

  /**
   * The `_write_section` calls of write_psk once the limits are met, one
   * after the other: the seven sections always written, then VTXNORMS
   * when there are vertex normals.
   */
  method WriteChunks(c: PskLists<F32>) returns (bytes: seq<Byte>)
    ensures bytes == ChunksBytes(c, PskChunkCount(c))
  {
    var fp := new Stream();
    for k := 0 to PskChunkCount(c)
      invariant fp.bytes == ChunksBytes(c, k)
    {
      WriteChunk(fp, c, k);
    }
    bytes := fp.bytes;
  }

  /**
   * The k-th `_write_section` call, after the k before it. The wedges are
   * first copied into Wedge16 records.
   */
  method WriteChunk(fp: Stream, c: PskLists<F32>, k: nat)
    requires k < PskChunkCount(c)
    requires fp.bytes == ChunksBytes(c, k)
    modifies fp
    ensures fp.bytes == ChunksBytes(c, k + 1)
  {
    if k == 2 {
      var wedges := ConvertWedges(c.wedges);
      WriteSection(fp, VTXW0000, Some(WEDGE16_SIZE), Some(Map(wedges, EncodeWedge16)));
    } else {
      var ch := PskChunk(c, k);
      WriteSection(fp, ch.name, ch.recordSize, ch.records);
    }
  }

  /** The bytes of the first n sections of write_psk, one after the other. */
  function ChunksBytes(c: PskLists<F32>, n: nat): seq<Byte>
  {
    if n == 0 then [] else ChunksBytes(c, n - 1) + ChunkBytes(PskChunk(c, n - 1))
  }

  lemma {:induction false} ChunksBytesPrefix(c: PskLists<F32>, n: nat)
    requires n <= PskChunkCount(c)
    ensures ChunksBytes(c, n) == Concat(Map(PskChunks(c)[..n], ChunkBytes))
  {
    if n > 0 {
      ChunksBytesPrefix(c, n - 1);
      MapConcatStep(PskChunks(c), n - 1, ChunkBytes);
    } else {
      assert PskChunks(c)[..0] == [];
    }
  }

  lemma ChunksBytesAll(c: PskLists<F32>)
    ensures ChunksBytes(c, PskChunkCount(c)) == Concat(Map(PskChunks(c), ChunkBytes))
  {
    ChunksBytesPrefix(c, PskChunkCount(c));
    assert PskChunks(c)[..PskChunkCount(c)] == PskChunks(c);
  }

  /** The loop of write_psk that copies every wedge into a Wedge16. */
  method ConvertWedges(ws: seq<WedgeEntry>) returns (wedges: seq<Wedge16>)
    ensures wedges == Map(ws, ToWedge16)
  {
    wedges := [];
    for i := 0 to |ws|
      invariant wedges == Map(ws[..i], ToWedge16)
    {
      assert ws[..i + 1] == ws[..i] + [ws[i]];
      MapConcat(ws[..i], [ws[i]], ToWedge16);
      wedges := wedges + [ToWedge16(ws[i])];
    }
    assert ws[..|ws|] == ws;
  }
}

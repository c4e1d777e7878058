// Reading back what `write_psk` writes: the sections of a written mesh are
// recognised in order and give back its lists, with every wedge as the
// Wedge16 it was written as.
module PskRoundTrip {
  import opened Bytes
  import opened Wrappers
  import opened SharedData
  import opened Seqs
  import opened Chunks
  import opened PskData
  import opened PskWriter
  import opened PskReader

  /* ------------------------------------------- Any section, written once */

  /** The data_size a section is written with. */
  function WrittenSize(ch: ChunkOut): int
  {
    if ch.records.Some? && ch.recordSize.Some? then ch.recordSize.value else 0
  }

  /**
   * A section the reader takes back as written: a NUL-free name it
   * recognises, a header exactly when there are no records, and records of
   * the class's size whose size and number fit in a 32-bit signed field.
   */
  predicate Readable(ch: ChunkOut)
  {
    0 !in ch.name
    && (ch.records.Some? ==> ch.recordSize.Some?)
    && SectionKindOf(ch.name, WrittenSize(ch)).Ok?
    && (SectionKindOf(ch.name, WrittenSize(ch)).value.Header? <==> ch.records.None?)
    && (ch.records.Some? ==>
          var n := ch.recordSize.value;
          n == ClassSize(SectionKindOf(ch.name, n).value) && n < 0x8000_0000
          && |ch.records.value| < 0x8000_0000
          && forall i :: 0 <= i < |ch.records.value| ==> |ch.records.value[i]| == n)
  }

  /** What reading a readable section adds to the lists. */
  function AddChunk(c: PskLists<F32>, ch: ChunkOut): PskLists<F32>
    requires Readable(ch)
  {
    AddRecords(c, SectionKindOf(ch.name, WrittenSize(ch)).value,
      if ch.records.Some? then ch.records.value else [])
  }

  /**
   * A readable section written between pos and end is read back from pos:
   * its records are added and the reader continues at end.
   */
  lemma ReadChunkOfWritten(before: PskLists<F32>, after: PskLists<F32>, ch: ChunkOut, data: seq<Byte>, pos: nat, end: nat)
    requires Readable(ch) && AddChunk(before, ch) == after
    requires pos + |ChunkBytes(ch)| == end <= |data| && data[pos..end] == ChunkBytes(ch)
    ensures pos < |data| && ReadChunk(before, data, pos) == Ok((after, end))
  {
    assert Ok((AddChunk(before, ch), pos + |ChunkBytes(ch)|)) == Ok((after, end));
    WrittenChunkReads(before, data, pos, ch);
  }

  /** A written section read from where it starts gives its records and the position after it. */
  lemma WrittenChunkReads(c: PskLists<F32>, data: seq<Byte>, pos: nat, ch: ChunkOut)
    requires Readable(ch)
    requires pos + |ChunkBytes(ch)| <= |data| && data[pos..pos + |ChunkBytes(ch)|] == ChunkBytes(ch)
    ensures pos < |data| && ReadChunk(c, data, pos) == Ok((AddChunk(c, ch), pos + |ChunkBytes(ch)|))
  {
    var h := HeaderOfWritten(data, pos, ch);
    var end := pos + |ChunkBytes(ch)|;
    BodyOfWritten(c, data, pos + SECTION_SIZE, ch, h, end);
    ReadChunkOfHeader(c, data, pos, h, Ok((AddChunk(c, ch), end)));
  }

  /** Once the header at pos reads as h, a pass gives what the body after it gives. */
  lemma ReadChunkOfHeader(c: PskLists<F32>, data: seq<Byte>, pos: nat, h: Section, v: Result<(PskLists<F32>, nat)>)
    requires pos + SECTION_SIZE <= |data| && ReadSection(data, pos) == Ok(h)
    requires ReadSectionBody(c, data, pos + SECTION_SIZE, h) == v
    ensures ReadChunk(c, data, pos) == v
  {
  }

  /** The header of a written section reads back with its name, record size and count. */
  lemma HeaderOfWritten(data: seq<Byte>, pos: nat, ch: ChunkOut) returns (h: Section)
    requires Readable(ch)
    requires pos + |ChunkBytes(ch)| <= |data| && data[pos..pos + |ChunkBytes(ch)|] == ChunkBytes(ch)
    ensures pos + SECTION_SIZE <= |data| && ReadSection(data, pos) == Ok(h)
    ensures CharArrayValue(h.name) == ch.name && h.dataSize == WrittenSize(ch)
    ensures ch.records.None? ==> h.dataCount == 0 && |ChunkBytes(ch)| == SECTION_SIZE
    ensures ch.records.Some? ==>
      (h.dataCount == |ch.records.value|
       && |ChunkBytes(ch)| == SECTION_SIZE + |Concat(ch.records.value)|
       && data[pos + SECTION_SIZE..pos + SECTION_SIZE + |Concat(ch.records.value)|] == Concat(ch.records.value))
  {
    h := SectionHeader(ch.name, ch.recordSize, ch.records);
    if ch.records.None? {
      SectionWithoutRecords(ch.name, ch.recordSize);
      ReadSectionOfBytes(data, pos, h, []);
    } else {
      SectionWithRecords(ch.name, ch.recordSize.value, ch.records.value);
      ReadSectionOfBytes(data, pos, h, Concat(ch.records.value));
    }
  }

  /** After the header, the body of a written section gives back its records. */
  lemma BodyOfWritten(c: PskLists<F32>, data: seq<Byte>, start: nat, ch: ChunkOut, h: Section, end: nat)
    requires Readable(ch) && start <= |data|
    requires end == start + if ch.records.Some? then |Concat(ch.records.value)| else 0
    requires CharArrayValue(h.name) == ch.name && h.dataSize == WrittenSize(ch)
    requires ch.records.None? ==> h.dataCount == 0
    requires ch.records.Some? ==>
      (h.dataCount == |ch.records.value|
       && start + |Concat(ch.records.value)| <= |data|
       && data[start..start + |Concat(ch.records.value)|] == Concat(ch.records.value))
    ensures ReadSectionBody(c, data, start, h) == Ok((AddChunk(c, ch), end))
  {
    if ch.records.Some? {
      var n := ch.recordSize.value;
      var rs := ch.records.value;
      ConcatLength(rs, n);
      var buffer := ReadBytes(data, start, h.dataSize * h.dataCount).value;
      assert buffer == Concat(rs);
      RecordSlicesOfConcat(buffer, rs, n, 0);
    }
  }

  /* ----------------------------------------------- The sections of a PSK */

  /**
   * The meshes whose file reads back: within the writer's limits, every
   * list short enough for a 32-bit signed count, and every face a 16-bit
   * one (the FACE0000 section declares 12-byte records).
   */
  predicate RoundTrips(c: PskLists<F32>)
  {
    LimitError(c).None?
    && |c.points| < 0x8000_0000 && |c.faces| < 0x8000_0000
    && |c.weights| < 0x8000_0000 && |c.vertexNormals| < 0x8000_0000
    && forall i :: 0 <= i < |c.faces| ==> c.faces[i].Face16Entry?
  }

  function AsReadWedge16(w: Wedge16): WedgeEntry
  {
    ReadWedge16(w)
  }

  /** The lists read back after the first k sections of the file. */
  function ReadBackUpTo(c: PskLists<F32>, k: nat): PskLists<F32>
  {
    PskLists(
      if k >= 2 then c.points else [],
      if k >= 3 then Map(Map(c.wedges, ToWedge16), AsReadWedge16) else [],
      if k >= 4 then c.faces else [],
      if k >= 5 then c.materials else [],
      if k >= 7 then c.weights else [],
      if k >= 6 then c.bones else [],
      [], [],
      if k >= 8 then c.vertexNormals else [],
      [], [], [])
  }

  /**
   * What reading a written mesh gives: the points, faces, materials,
   * bones, weights and normals as they were, every wedge as the Wedge16 it
   * was written as, and nothing in the lists write_psk does not write.
   */
  function ReadBack(c: PskLists<F32>): PskLists<F32>
  {
    PskLists(c.points, Map(Map(c.wedges, ToWedge16), AsReadWedge16), c.faces, c.materials,
      c.weights, c.bones, [], [], c.vertexNormals, [], [], [])
  }

  lemma ReadBackAll(c: PskLists<F32>)
    ensures ReadBackUpTo(c, PskChunkCount(c)) == ReadBack(c)
  {
  }

  /** A section with records is readable when its name selects a class of the declared size. */
  lemma RecordsReadable(name: SectionName, n: nat, rs: seq<seq<Byte>>, k: SectionKind)
    requires 0 !in name && SectionKindOf(name, n) == Ok(k) && !k.Header? && ClassSize(k) == n
    requires n < 0x8000_0000 && |rs| < 0x8000_0000
    requires forall i :: 0 <= i < |rs| ==> |rs[i]| == n
    ensures Readable(ChunkOut(name, Some(n), Some(rs)))
  {
  }

  /** Every section write_psk writes for a mesh that round-trips is readable. */
  lemma ChunkReadable(c: PskLists<F32>, k: nat)
    requires RoundTrips(c) && k < PskChunkCount(c)
    ensures Readable(PskChunk(c, k))
  {
    match k
    case 0 => HeaderReadable(c);
    case 1 => PointsReadable(c);
    case 2 => Wedges16Readable(c);
    case 3 => Faces16Readable(c);
    case 4 => MaterialsReadable(c);
    case 5 => BonesReadable(c);
    case 6 => WeightsReadable(c);
    case 7 => NormalsReadable(c);
  }

  lemma HeaderReadable(c: PskLists<F32>)
    ensures Readable(PskChunk(c, 0))
    ensures SectionKindOf(PskChunk(c, 0).name, WrittenSize(PskChunk(c, 0))) == Ok(Header)
  {
    KindOfWrittenNames();
    assert 0 !in ACTRHEAD;
  }

  lemma PointsReadable(c: PskLists<F32>)
    requires |c.points| < 0x8000_0000
    ensures Readable(PskChunk(c, 1))
    ensures SectionKindOf(PskChunk(c, 1).name, WrittenSize(PskChunk(c, 1))) == Ok(Points)
  {
    KindOfWrittenNames();
    assert 0 !in PNTS0000;
    RecordsReadable(PNTS0000, VECTOR3_SIZE, Map(c.points, EncodeVector3), Points);
  }

  lemma Wedges16Readable(c: PskLists<F32>)
    requires |c.wedges| <= MAX_WEDGE_COUNT
    ensures Readable(PskChunk(c, 2))
    ensures SectionKindOf(PskChunk(c, 2).name, WrittenSize(PskChunk(c, 2))) == Ok(Wedges16)
  {
    KindOfWrittenNames();
    assert 0 !in VTXW0000;
    RecordsReadable(VTXW0000, WEDGE16_SIZE, Map(Map(c.wedges, ToWedge16), EncodeWedge16), Wedges16);
  }

  lemma Faces16Readable(c: PskLists<F32>)
    requires |c.faces| < 0x8000_0000 && forall i :: 0 <= i < |c.faces| ==> c.faces[i].Face16Entry?
    ensures Readable(PskChunk(c, 3))
    ensures SectionKindOf(PskChunk(c, 3).name, WrittenSize(PskChunk(c, 3))) == Ok(Faces16)
  {
    KindOfWrittenNames();
    assert 0 !in FACE0000;
    RecordsReadable(FACE0000, FACE_SIZE, Map(c.faces, EncodeFaceEntry), Faces16);
  }

  lemma MaterialsReadable(c: PskLists<F32>)
    requires |c.materials| <= MAX_MATERIAL_COUNT
    ensures Readable(PskChunk(c, 4))
    ensures SectionKindOf(PskChunk(c, 4).name, WrittenSize(PskChunk(c, 4))) == Ok(Materials)
  {
    KindOfWrittenNames();
    assert 0 !in MATT0000;
    RecordsReadable(MATT0000, MATERIAL_SIZE, Map(c.materials, EncodeMaterial), Materials);
  }

  lemma BonesReadable(c: PskLists<F32>)
    requires |c.bones| <= MAX_BONE_COUNT
    ensures Readable(PskChunk(c, 5))
    ensures SectionKindOf(PskChunk(c, 5).name, WrittenSize(PskChunk(c, 5))) == Ok(Bones)
  {
    KindOfWrittenNames();
    assert 0 !in REFSKELT;
    RecordsReadable(REFSKELT, PSX_BONE_SIZE, Map(c.bones, EncodePsxBone), Bones);
  }

  lemma WeightsReadable(c: PskLists<F32>)
    requires |c.weights| < 0x8000_0000
    ensures Readable(PskChunk(c, 6))
    ensures SectionKindOf(PskChunk(c, 6).name, WrittenSize(PskChunk(c, 6))) == Ok(Weights)
  {
    KindOfWrittenNames();
    assert 0 !in RAWWEIGHTS;
    RecordsReadable(RAWWEIGHTS, WEIGHT_SIZE, Map(c.weights, EncodeWeight), Weights);
  }

  lemma NormalsReadable(c: PskLists<F32>)
    requires |c.vertexNormals| < 0x8000_0000
    ensures Readable(PskChunk(c, 7))
    ensures SectionKindOf(PskChunk(c, 7).name, WrittenSize(PskChunk(c, 7))) == Ok(Normals)
  {
    KindOfWrittenNames();
    assert 0 !in VTXNORMS;
    RecordsReadable(VTXNORMS, VECTOR3_SIZE, Map(c.vertexNormals, EncodeVector3), Normals);
  }

  /** Reading the k-th section written for c takes the lists read so far to those after k + 1 sections. */
  lemma ReadBackStep(c: PskLists<F32>, k: nat)
    requires RoundTrips(c) && k < PskChunkCount(c)
    ensures Readable(PskChunk(c, k))
    ensures AddChunk(ReadBackUpTo(c, k), PskChunk(c, k)) == ReadBackUpTo(c, k + 1)
  {
    match k
    case 0 => HeaderBack(c);
    case 1 => PointsBack(c);
    case 2 => WedgesBack(c);
    case 3 => FacesBack(c);
    case 4 => MaterialsBack(c);
    case 5 => BonesBack(c);
    case 6 => WeightsBack(c);
    case 7 => NormalsBack(c);
  }

  lemma HeaderBack(c: PskLists<F32>)
    ensures Readable(PskChunk(c, 0))
    ensures AddChunk(ReadBackUpTo(c, 0), PskChunk(c, 0)) == ReadBackUpTo(c, 1)
  {
    HeaderReadable(c);
  }

  lemma PointsBack(c: PskLists<F32>)
    requires |c.points| < 0x8000_0000
    ensures Readable(PskChunk(c, 1))
    ensures AddChunk(ReadBackUpTo(c, 1), PskChunk(c, 1)) == ReadBackUpTo(c, 2)
  {
    PointsReadable(c);
    forall i | 0 <= i < |c.points| ensures DecodeVector3(EncodeVector3(c.points[i])) == c.points[i] {
      Vector3RoundTrip(c.points[i]);
    }
    DecodeAllOfEncoded(c.points, VECTOR3_SIZE, EncodeVector3, DecodeVector3);
  }

  lemma WedgesBack(c: PskLists<F32>)
    requires |c.wedges| <= MAX_WEDGE_COUNT
    ensures Readable(PskChunk(c, 2))
    ensures AddChunk(ReadBackUpTo(c, 2), PskChunk(c, 2)) == ReadBackUpTo(c, 3)
  {
    Wedges16Readable(c);
    var ws := Map(c.wedges, ToWedge16);
    forall i | 0 <= i < |ws| ensures ReadWedge16Entry(EncodeWedge16(ws[i])) == AsReadWedge16(ws[i]) {
      Wedge16RoundTrip(ws[i]);
    }
    DecodeAllOfEncodedAs(ws, WEDGE16_SIZE, EncodeWedge16, ReadWedge16Entry, AsReadWedge16);
  }

  lemma FacesBack(c: PskLists<F32>)
    requires |c.faces| < 0x8000_0000 && forall i :: 0 <= i < |c.faces| ==> c.faces[i].Face16Entry?
    ensures Readable(PskChunk(c, 3))
    ensures AddChunk(ReadBackUpTo(c, 3), PskChunk(c, 3)) == ReadBackUpTo(c, 4)
  {
    Faces16Readable(c);
    forall i | 0 <= i < |c.faces| ensures ReadFace16Entry(EncodeFaceEntry(c.faces[i])) == c.faces[i] {
      FaceRoundTrip(c.faces[i].face);
    }
    DecodeAllOfEncoded(c.faces, FACE_SIZE, EncodeFaceEntry, ReadFace16Entry);
  }

  lemma MaterialsBack(c: PskLists<F32>)
    requires |c.materials| <= MAX_MATERIAL_COUNT
    ensures Readable(PskChunk(c, 4))
    ensures AddChunk(ReadBackUpTo(c, 4), PskChunk(c, 4)) == ReadBackUpTo(c, 5)
  {
    MaterialsReadable(c);
    forall i | 0 <= i < |c.materials| ensures DecodeMaterial(EncodeMaterial(c.materials[i])) == c.materials[i] {
      MaterialRoundTrip(c.materials[i]);
    }
    DecodeAllOfEncoded(c.materials, MATERIAL_SIZE, EncodeMaterial, DecodeMaterial);
  }

  lemma BonesBack(c: PskLists<F32>)
    requires |c.bones| <= MAX_BONE_COUNT
    ensures Readable(PskChunk(c, 5))
    ensures AddChunk(ReadBackUpTo(c, 5), PskChunk(c, 5)) == ReadBackUpTo(c, 6)
  {
    BonesReadable(c);
    forall i | 0 <= i < |c.bones| ensures DecodePsxBone(EncodePsxBone(c.bones[i])) == c.bones[i] {
      PsxBoneRoundTrip(c.bones[i]);
    }
    DecodeAllOfEncoded(c.bones, PSX_BONE_SIZE, EncodePsxBone, DecodePsxBone);
  }

  lemma WeightsBack(c: PskLists<F32>)
    requires |c.weights| < 0x8000_0000
    ensures Readable(PskChunk(c, 6))
    ensures AddChunk(ReadBackUpTo(c, 6), PskChunk(c, 6)) == ReadBackUpTo(c, 7)
  {
    WeightsReadable(c);
    forall i | 0 <= i < |c.weights| ensures DecodeWeight(EncodeWeight(c.weights[i])) == c.weights[i] {
      WeightRoundTrip(c.weights[i]);
    }
    DecodeAllOfEncoded(c.weights, WEIGHT_SIZE, EncodeWeight, DecodeWeight);
  }

  lemma NormalsBack(c: PskLists<F32>)
    requires |c.vertexNormals| < 0x8000_0000
    ensures Readable(PskChunk(c, 7))
    ensures AddChunk(ReadBackUpTo(c, 7), PskChunk(c, 7)) == ReadBackUpTo(c, 8)
  {
    NormalsReadable(c);
    forall i | 0 <= i < |c.vertexNormals| ensures DecodeVector3(EncodeVector3(c.vertexNormals[i])) == c.vertexNormals[i] {
      Vector3RoundTrip(c.vertexNormals[i]);
    }
    DecodeAllOfEncoded(c.vertexNormals, VECTOR3_SIZE, EncodeVector3, DecodeVector3);
  }

  /* ------------------------------------------------ The whole file, read */

  /** Where the j-th piece of a file made of the pieces parts starts. */
  function Offset(parts: seq<seq<Byte>>, j: nat): nat
    requires j <= |parts|
  {
    |Concat(parts[..j])|
  }

  /**
   * Each section of a file made of readable sections, read where it
   * starts, takes states[j] to states[j + 1] when its records do.
   */
  lemma WrittenSteps(chs: seq<ChunkOut>, states: seq<PskLists<F32>>)
    requires |states| == |chs| + 1
    requires forall j :: 0 <= j < |chs| ==> Readable(chs[j]) && AddChunk(states[j], chs[j]) == states[j + 1]
    ensures var parts := Map(chs, ChunkBytes);
      forall j :: 0 <= j < |parts| ==>
        Offset(parts, j) < |Concat(parts)|
        && ReadChunk(states[j], Concat(parts), Offset(parts, j)) == Ok((states[j + 1], Offset(parts, j + 1)))
  {
    var parts := Map(chs, ChunkBytes);
    forall j | 0 <= j < |parts|
      ensures Offset(parts, j) < |Concat(parts)|
      ensures ReadChunk(states[j], Concat(parts), Offset(parts, j)) == Ok((states[j + 1], Offset(parts, j + 1)))
    {
      PieceAt(parts, j);
      ReadChunkOfWritten(states[j], states[j + 1], chs[j], Concat(parts), Offset(parts, j), Offset(parts, j + 1));
    }
  }

  /**
   * Reading a file whose j-th piece takes states[j] to states[j + 1],
   * from after the first k pieces with states[k], ends with the last state.
   */
  lemma {:induction false} ReadChain(states: seq<PskLists<F32>>, parts: seq<seq<Byte>>, k: nat)
    requires |states| == |parts| + 1 && k <= |parts|
    requires forall j :: 0 <= j < |parts| ==>
      Offset(parts, j) < |Concat(parts)|
      && ReadChunk(states[j], Concat(parts), Offset(parts, j)) == Ok((states[j + 1], Offset(parts, j + 1)))
    ensures Offset(parts, k) <= |Concat(parts)|
    ensures ReadFrom(states[k], Concat(parts), Offset(parts, k)) == Ok(states[|parts|])
    decreases |parts| - k
  {
    if k < |parts| {
      ReadFromStep(states[k], Concat(parts), Offset(parts, k), states[k + 1], Offset(parts, k + 1));
      ReadChain(states, parts, k + 1);
    } else {
      assert parts[..k] == parts;
    }
  }

  /**
   * The file write_psk writes for a mesh that round-trips reads back as
   * that mesh: the same points, faces, materials, bones, weights and
   * normals, and every wedge as the Wedge16 it was written as.
   */
  lemma PskRoundTrip(c: PskLists<F32>)
    requires RoundTrips(c)
    ensures PskFile(c).Ok?
    ensures ReadPsk(PskFile(c).value) == Ok(ReadBack(c))
  {
    var chs := PskChunks(c);
    var states := seq(|chs| + 1, j requires 0 <= j => ReadBackUpTo(c, j));
    forall j | 0 <= j < |chs|
      ensures Readable(chs[j]) && AddChunk(states[j], chs[j]) == states[j + 1]
    {
      ReadBackStep(c, j);
    }
    WrittenSteps(chs, states);
    ReadChain(states, Map(chs, ChunkBytes), 0);
    ReadBackAll(c);
    assert Map(chs, ChunkBytes)[..0] == [];
    assert ReadBackUpTo(c, 0) == EmptyLists();
  }

  /**
   * The wedges read back keep the u and v of the wedges written and their
   * point and material indices whenever those fit the 32-bit and 8-bit
   * unsigned fields.
   */
  lemma WedgesReadBack(c: PskLists<F32>, i: nat)
    requires i < |c.wedges|
    ensures |ReadBack(c).wedges| == |c.wedges|
    ensures var w := ReadBack(c).wedges[i]; var orig := c.wedges[i];
      w.ReadWedge16? && w.U() == orig.U() && w.V() == orig.V()
      && (U32.InRange(orig.PointIndex()) ==> w.PointIndex() == orig.PointIndex())
      && (U8.InRange(orig.MaterialIndex()) ==> w.MaterialIndex() == orig.MaterialIndex())
  {
  }
}

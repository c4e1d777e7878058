// `PskReader` (io_scene_psk_psa/psk/reader.py): a PSK file is read section
// by section until the end of the data; each section's header says what
// its records are, how large each one is and how many there are.
module PskReader {
  import opened Bytes
  import opened Wrappers
  import opened SharedData
  import opened Chunks
  import opened PskData

  /** The sections `PskReader.read` knows, by the record class it reads. */
  datatype SectionKind =
    | Header | Points | Wedges16 | Wedges32 | Faces16 | Faces32
    | Materials | Bones | Weights | Colors | ExtraUvs | Normals

  /** Whether `read` has a branch for a section of this name. */
  predicate Recognized(name: seq<Byte>)
  {
    name == ACTRHEAD || name == PNTS0000 || name == VTXW0000 || name == FACE0000
    || name == MATT0000 || name == REFSKELT || name == RAWWEIGHTS || name == FACE3200
    || name == VERTEXCOLOR || EXTRAUVS <= name || name == VTXNORMS
  }

  /** One `if`/`elif` test of `read` on the section name: equality, or `startswith`. */
  datatype Branch = Branch(pattern: seq<Byte>, isPrefix: bool, kind: SectionKind)

  predicate Matches(name: seq<Byte>, b: Branch)
  {
    if b.isPrefix then b.pattern <= name else name == b.pattern
  }

  /** The name tests of `read`, in the order of its `if`/`elif` chain. */
  const READ_BRANCHES: seq<Branch> := [
    Branch(ACTRHEAD, false, Header), Branch(PNTS0000, false, Points),
    Branch(VTXW0000, false, Wedges16), Branch(FACE0000, false, Faces16),
    Branch(MATT0000, false, Materials), Branch(REFSKELT, false, Bones),
    Branch(RAWWEIGHTS, false, Weights), Branch(FACE3200, false, Faces32),
    Branch(VERTEXCOLOR, false, Colors), Branch(EXTRAUVS, true, ExtraUvs),
    Branch(VTXNORMS, false, Normals)]

  /** The first branch whose test the name passes, as an `if`/`elif` chain takes it. */
  function Dispatch(name: seq<Byte>, branches: seq<Branch>): Option<SectionKind>
  {
    if branches == [] then None
    else if Matches(name, branches[0]) then Some(branches[0].kind)
    else Dispatch(name, branches[1..])
  }

  /** Dispatch finds a branch exactly when some test passes, and then takes the first such branch. */
  lemma {:induction false} DispatchFirst(name: seq<Byte>, branches: seq<Branch>)
    ensures Dispatch(name, branches).Some? <==> exists i :: 0 <= i < |branches| && Matches(name, branches[i])
    ensures Dispatch(name, branches).Some? ==>
      exists i :: 0 <= i < |branches| && Matches(name, branches[i])
        && Dispatch(name, branches).value == branches[i].kind && forall j :: 0 <= j < i ==> !Matches(name, branches[j])
  {
    if branches != [] && !Matches(name, branches[0]) {
      DispatchFirst(name, branches[1..]);
      assert forall i :: 1 <= i < |branches| ==> branches[i] == branches[1..][i - 1];
      if Dispatch(name, branches).Some? {
        var i :| 0 <= i < |branches[1..]| && Matches(name, branches[1..][i])
          && Dispatch(name, branches).value == branches[1..][i].kind
          && forall j :: 0 <= j < i ==> !Matches(name, branches[1..][j]);
        assert Matches(name, branches[i + 1]);
      }
    }
  }

  /** A name that passes branch i and none before it is dispatched to branch i. */
  lemma {:induction false} DispatchAt(name: seq<Byte>, branches: seq<Branch>, i: nat)
    requires i < |branches| && Matches(name, branches[i])
    requires forall j :: 0 <= j < i ==> !Matches(name, branches[j])
    ensures Dispatch(name, branches) == Some(branches[i].kind)
  {
    if i > 0 {
      assert !Matches(name, branches[0]);
      DispatchAt(name, branches[1..], i - 1);
    }
  }

  /**
   * The branch `read` takes for a section header: by name, and for
   * VTXW0000 by the declared record size. An unknown name is an error.
   */
  function SectionKindOf(name: seq<Byte>, dataSize: int): (r: Result<SectionKind>)
  {
    match Dispatch(name, READ_BRANCHES)
    case None => Err(RuntimeError("Unrecognized section"))
    case Some(k) =>
      if k == Wedges16 then
        if dataSize == WEDGE16_SIZE then Ok(Wedges16)
        else if dataSize == WEDGE32_SIZE then Ok(Wedges32)
        else Err(RuntimeError("Unrecognized wedge format"))
      else Ok(k)
  }

  /** The table passes a name exactly when `read` has a branch for it; only VTXW0000 selects the wedges. */
  lemma DispatchRecognized(name: seq<Byte>)
    ensures Dispatch(name, READ_BRANCHES).Some? <==> Recognized(name)
    ensures Dispatch(name, READ_BRANCHES) == Some(Wedges16) <==> name == VTXW0000
  {
    var t := READ_BRANCHES;
    DispatchFirst(name, t);
    if name == ACTRHEAD { assert Matches(name, t[0]); }
    else if name == PNTS0000 { assert Matches(name, t[1]); }
    else if name == VTXW0000 { assert Matches(name, t[2]); }
    else if name == FACE0000 { assert Matches(name, t[3]); }
    else if name == MATT0000 { assert Matches(name, t[4]); }
    else if name == REFSKELT { assert Matches(name, t[5]); }
    else if name == RAWWEIGHTS { assert Matches(name, t[6]); }
    else if name == FACE3200 { assert Matches(name, t[7]); }
    else if name == VERTEXCOLOR { assert Matches(name, t[8]); }
    else if EXTRAUVS <= name { assert Matches(name, t[9]); }
    else if name == VTXNORMS { assert Matches(name, t[10]); }
    if name == VTXW0000 {
      DispatchAt(name, t, 2);
    }
  }

  /** Error cases of the dispatch: an unknown name, or VTXW0000 with a size of neither wedge record. */
  lemma SectionKindOfErrors(name: seq<Byte>, dataSize: int)
    ensures SectionKindOf(name, dataSize).Err? <==> !Recognized(name) || (name == VTXW0000 && dataSize != WEDGE16_SIZE)
    ensures SectionKindOf(name, dataSize).Err? ==> SectionKindOf(name, dataSize).error.RuntimeError?
  {
    DispatchRecognized(name);
  }

  /**
   * Wedge16 and Wedge32 records are both 16 bytes long, so the Wedge16 test
   * always wins and the Wedge32 branch is never taken.
   */
  lemma Wedge32NeverRead(name: seq<Byte>, dataSize: int)
    ensures SectionKindOf(name, dataSize) != Ok(Wedges32)
  {
    DispatchFirst(name, READ_BRANCHES);
  }

  /**
   * The unrecognized-section branch as written: its message puts the
   * format specification `fp.tell()` after the integer 15, and formatting
   * an integer with that specification raises ValueError before the
   * RuntimeError is built.
   */
  function SectionKindAsWritten(name: seq<Byte>, dataSize: int): (r: Result<SectionKind>)
  {
    if Recognized(name) then SectionKindOf(name, dataSize)
    else Err(ValueError("Invalid format specifier"))
  }

  /** An unknown section name: the intended RuntimeError, and the ValueError the code raises instead. */
  lemma UnknownSectionError(name: seq<Byte>, dataSize: int)
    requires !Recognized(name)
    ensures SectionKindOf(name, dataSize) == Err(RuntimeError("Unrecognized section"))
    ensures SectionKindAsWritten(name, dataSize) == Err(ValueError("Invalid format specifier"))
  {
    DispatchRecognized(name);
  }

  /** A concrete section name that shows the difference. */
  lemma UnknownSectionExample()
    ensures SectionKindAsWritten([0x58], 0).error.ValueError?
    ensures SectionKindOf([0x58], 0) == Err(RuntimeError("Unrecognized section"))
  {
    assert !Recognized([0x58]) by {
      assert [0x58] != ACTRHEAD && !(EXTRAUVS <= [0x58]);
    }
    UnknownSectionError([0x58], 0);
  }

  /** The names `write_psk` writes select the section kinds their records belong to. */
  lemma KindOfWrittenNames()
    ensures SectionKindOf(ACTRHEAD, 0) == Ok(Header)
    ensures SectionKindOf(PNTS0000, VECTOR3_SIZE) == Ok(Points)
    ensures SectionKindOf(VTXW0000, WEDGE16_SIZE) == Ok(Wedges16)
    ensures SectionKindOf(FACE0000, FACE_SIZE) == Ok(Faces16)
    ensures SectionKindOf(MATT0000, MATERIAL_SIZE) == Ok(Materials)
    ensures SectionKindOf(REFSKELT, PSX_BONE_SIZE) == Ok(Bones)
    ensures SectionKindOf(RAWWEIGHTS, WEIGHT_SIZE) == Ok(Weights)
    ensures SectionKindOf(VTXNORMS, VECTOR3_SIZE) == Ok(Normals)
  {
    DispatchOfActrhead();
    DispatchOfPnts();
    DispatchOfVtxw();
    DispatchOfFace();
    DispatchOfMatt();
    DispatchOfRefskelt();
    DispatchOfRawweights();
    DispatchOfVtxnorms();
  }

  lemma DispatchOfActrhead()
    ensures Dispatch(ACTRHEAD, READ_BRANCHES) == Some(Header)
  {
    DispatchAt(ACTRHEAD, READ_BRANCHES, 0);
  }

  lemma DispatchOfPnts()
    ensures Dispatch(PNTS0000, READ_BRANCHES) == Some(Points)
  {
    DispatchAt(PNTS0000, READ_BRANCHES, 1);
  }

  lemma DispatchOfVtxw()
    ensures Dispatch(VTXW0000, READ_BRANCHES) == Some(Wedges16)
  {
    DispatchAt(VTXW0000, READ_BRANCHES, 2);
  }

  lemma DispatchOfFace()
    ensures Dispatch(FACE0000, READ_BRANCHES) == Some(Faces16)
  {
    DispatchAt(FACE0000, READ_BRANCHES, 3);
  }

  lemma DispatchOfMatt()
    ensures Dispatch(MATT0000, READ_BRANCHES) == Some(Materials)
  {
    DispatchAt(MATT0000, READ_BRANCHES, 4);
  }

  lemma DispatchOfRefskelt()
    ensures Dispatch(REFSKELT, READ_BRANCHES) == Some(Bones)
  {
    DispatchAt(REFSKELT, READ_BRANCHES, 5);
  }

  lemma DispatchOfRawweights()
    ensures Dispatch(RAWWEIGHTS, READ_BRANCHES) == Some(Weights)
  {
    assert RAWWEIGHTS[1] != REFSKELT[1];
    DispatchAt(RAWWEIGHTS, READ_BRANCHES, 6);
  }

  lemma DispatchOfVtxnorms()
    ensures Dispatch(VTXNORMS, READ_BRANCHES) == Some(Normals)
  {
    assert VTXNORMS[3] != VTXW0000[3] && VTXNORMS[1] != VERTEXCOLOR[1] && VTXNORMS[0] != EXTRAUVS[0];
    DispatchAt(VTXNORMS, READ_BRANCHES, 10);
  }

  /** `sizeof` of the record class of each section. */
  function ClassSize(k: SectionKind): nat
  {
    match k
    case Header => 0
    case Points => VECTOR3_SIZE
    case Wedges16 => WEDGE16_SIZE
    case Wedges32 => WEDGE32_SIZE
    case Faces16 => FACE_SIZE
    case Faces32 => FACE32_SIZE
    case Materials => MATERIAL_SIZE
    case Bones => PSX_BONE_SIZE
    case Weights => WEIGHT_SIZE
    case Colors => COLOR_SIZE
    case ExtraUvs => VECTOR2_SIZE
    case Normals => VECTOR3_SIZE
  }

  function ReadWedge16Entry(s: seq<Byte>): WedgeEntry
    requires |s| == WEDGE16_SIZE
  {
    ReadWedge16(DecodeWedge16(s))
  }

  function ReadWedge32Entry(s: seq<Byte>): WedgeEntry
    requires |s| == WEDGE32_SIZE
  {
    ReadWedge32(DecodeWedge32(s))
  }

  function ReadFace16Entry(s: seq<Byte>): FaceEntry
    requires |s| == FACE_SIZE
  {
    Face16Entry(DecodeFace(s))
  }

  function ReadFace32Entry(s: seq<Byte>): FaceEntry
    requires |s| == FACE32_SIZE
  {
    Face32Entry(DecodeFace32(s))
  }

  /**
   * `read_types(fp, data_class, section, data)` once the records are cut:
   * each is decoded as the section's class and appended to its list; the
   * other lists are unchanged. FACE0000 and FACE3200 both go to the faces,
   * every EXTRAUVS section to the one extra UV list.
   */
  function AddRecords(c: PskLists<F32>, k: SectionKind, rs: seq<seq<Byte>>): (r: PskLists<F32>)
    requires forall i :: 0 <= i < |rs| ==> |rs[i]| == ClassSize(k)
  {
    match k
    case Header => c
    case Points => c.(points := c.points + DecodeAll(rs, ClassSize(k), DecodeVector3))
    case Wedges16 => c.(wedges := c.wedges + DecodeAll(rs, ClassSize(k), ReadWedge16Entry))
    case Wedges32 => c.(wedges := c.wedges + DecodeAll(rs, ClassSize(k), ReadWedge32Entry))
    case Faces16 => c.(faces := c.faces + DecodeAll(rs, ClassSize(k), ReadFace16Entry))
    case Faces32 => c.(faces := c.faces + DecodeAll(rs, ClassSize(k), ReadFace32Entry))
    case Materials => c.(materials := c.materials + DecodeAll(rs, ClassSize(k), DecodeMaterial))
    case Bones => c.(bones := c.bones + DecodeAll(rs, ClassSize(k), DecodePsxBone))
    case Weights => c.(weights := c.weights + DecodeAll(rs, ClassSize(k), DecodeWeight))
    case Colors => c.(vertexColors := c.vertexColors + DecodeAll(rs, ClassSize(k), DecodeColor))
    case ExtraUvs => c.(extraUvs := c.extraUvs + DecodeAll(rs, ClassSize(k), DecodeVector2))
    case Normals => c.(vertexNormals := c.vertexNormals + DecodeAll(rs, ClassSize(k), DecodeVector3))
  }

  /** The records AddRecords appends, as a whole list: one more record of the class per slice. */
  lemma AddRecordsGrows(c: PskLists<F32>, k: SectionKind, rs: seq<seq<Byte>>)
    requires forall i :: 0 <= i < |rs| ==> |rs[i]| == ClassSize(k)
    ensures var r := AddRecords(c, k, rs);
      |r.points| + |r.wedges| + |r.faces| + |r.materials| + |r.bones| + |r.weights|
      + |r.vertexColors| + |r.extraUvs| + |r.vertexNormals|
      == |c.points| + |c.wedges| + |c.faces| + |c.materials| + |c.bones| + |c.weights|
      + |c.vertexColors| + |c.extraUvs| + |c.vertexNormals| + (if k.Header? then 0 else |rs|)
    ensures AddRecords(c, k, rs).morphInfos == c.morphInfos && AddRecords(c, k, rs).morphData == c.morphData
  {
  }

  /**
   * One pass of the loop of `read` at position pos: the 32-byte header,
   * then (except for ACTRHEAD) `fp.read(data_size * data_count)` and the
   * records cut from it. The result is the new lists and position.
   */
  function ReadChunk(c: PskLists<F32>, data: seq<Byte>, pos: nat): (r: Result<(PskLists<F32>, nat)>)
    requires pos < |data|
    ensures r.Ok? ==> pos + SECTION_SIZE <= r.value.1 <= |data|
  {
    match ReadSection(data, pos)
    case Err(e) => Err(e)
    case Ok(h) => ReadSectionBody(c, data, pos + SECTION_SIZE, h)
  }

  /**
   * The rest of one iteration once the header h has been read and the
   * reader stands at start: dispatch on the name and, for a record
   * section, read data_size * data_count bytes and copy the records out.
   */
  function ReadSectionBody(c: PskLists<F32>, data: seq<Byte>, start: nat, h: Section): (r: Result<(PskLists<F32>, nat)>)
    requires start <= |data|
    ensures r.Ok? ==> start <= r.value.1 <= |data|
  {
    match SectionKindOf(CharArrayValue(h.name), h.dataSize)
    case Err(e) => Err(e)
    case Ok(k) =>
      if k == Header then Ok((c, start))
      else
        match ReadBytes(data, start, h.dataSize * h.dataCount)
        case Err(e) => Err(e)
        case Ok(buffer) =>
          match RecordSlices(buffer, h.dataSize, h.dataCount, ClassSize(k), 0)
          case Err(e) => Err(e)
          case Ok(rs) => Ok((AddRecords(c, k, rs), start + |buffer|))
  }

  /** The loop of `read` from position pos to the end of the data. */
  function ReadFrom(c: PskLists<F32>, data: seq<Byte>, pos: nat): Result<PskLists<F32>>
    requires pos <= |data|
    decreases |data| - pos
  {
    if pos == |data| then Ok(c)
    else
      match ReadChunk(c, data, pos)
      case Err(e) => Err(e)
      case Ok((c', pos')) => ReadFrom(c', data, pos')
  }

  /** One section read: the reader goes on from where the section ends, with its records added. */
  lemma ReadFromStep(c: PskLists<F32>, data: seq<Byte>, pos: nat, c': PskLists<F32>, pos': nat)
    requires pos < |data| && ReadChunk(c, data, pos) == Ok((c', pos'))
    ensures pos' <= |data|
    ensures ReadFrom(c, data, pos) == ReadFrom(c', data, pos')
  {
  }

  /** `PskReader().read(path)` on a file holding data. */
  function ReadPsk(data: seq<Byte>): Result<PskLists<F32>>
  {
    ReadFrom(EmptyLists(), data, 0)
  }

  /** Reading nothing gives a Psk with every list empty; a header alone adds nothing. */
  lemma ReadPskEmpty()
    ensures ReadPsk([]) == Ok(EmptyLists())
  {
  }

  /** A file that ends inside a section header is a ValueError. */
  lemma ReadPskTruncatedHeader(data: seq<Byte>)
    requires 0 < |data| < SECTION_SIZE
    ensures ReadPsk(data).Err? && ReadPsk(data).error.ValueError?
  {
  }

  /** `read_types`: the section's records appended to the list the section names. */
  method AppendRecords(psk: Psk<F32>, k: SectionKind, rs: seq<seq<Byte>>)
    requires forall i :: 0 <= i < |rs| ==> |rs[i]| == ClassSize(k)
    modifies psk
    ensures psk.Contents() == AddRecords(old(psk.Contents()), k, rs)
  {
    match k
    case Header =>
    case Points => psk.points := psk.points + DecodeAll(rs, ClassSize(k), DecodeVector3);
    case Wedges16 => psk.wedges := psk.wedges + DecodeAll(rs, ClassSize(k), ReadWedge16Entry);
    case Wedges32 => psk.wedges := psk.wedges + DecodeAll(rs, ClassSize(k), ReadWedge32Entry);
    case Faces16 => psk.faces := psk.faces + DecodeAll(rs, ClassSize(k), ReadFace16Entry);
    case Faces32 => psk.faces := psk.faces + DecodeAll(rs, ClassSize(k), ReadFace32Entry);
    case Materials => psk.materials := psk.materials + DecodeAll(rs, ClassSize(k), DecodeMaterial);
    case Bones => psk.bones := psk.bones + DecodeAll(rs, ClassSize(k), DecodePsxBone);
    case Weights => psk.weights := psk.weights + DecodeAll(rs, ClassSize(k), DecodeWeight);
    case Colors => psk.vertexColors := psk.vertexColors + DecodeAll(rs, ClassSize(k), DecodeColor);
    case ExtraUvs => psk.extraUvs := psk.extraUvs + DecodeAll(rs, ClassSize(k), DecodeVector2);
    case Normals => psk.vertexNormals := psk.vertexNormals + DecodeAll(rs, ClassSize(k), DecodeVector3);
  }

  /** `PskReader.read`: a new Psk whose lists are filled section by section. */
  method Read(data: seq<Byte>) returns (r: Result<Psk<F32>>)
    ensures r.Ok? ==> ReadPsk(data) == Ok(r.value.Contents())
    ensures r.Err? ==> ReadPsk(data) == Err(r.error)
  {
    var psk := new Psk<F32>();
    var pos := 0;
    while pos < |data|
      invariant pos <= |data|
      invariant ReadPsk(data) == ReadFrom(psk.Contents(), data, pos)
      decreases |data| - pos
    {
      var next := ReadSectionInto(psk, data, pos);
      if next.Err? {
        return Err(next.error);
      }
      pos := next.value;
    }
    return Ok(psk);
  }

  /** One pass of the loop of `read`: the section at pos, its records added to psk. */
  method ReadSectionInto(psk: Psk<F32>, data: seq<Byte>, pos: nat) returns (r: Result<nat>)
    requires pos < |data|
    modifies psk
    ensures r.Ok? ==> ReadChunk(old(psk.Contents()), data, pos) == Ok((psk.Contents(), r.value))
    ensures r.Err? ==> ReadChunk(old(psk.Contents()), data, pos) == Err(r.error)
  {
    if |data| - pos < SECTION_SIZE {
      return Err(ValueError("Buffer size too small"));
    }
    var h := DecodeSection(data[pos..pos + SECTION_SIZE]);
    var kind := SectionKindOf(CharArrayValue(h.name), h.dataSize);
    if kind.Err? {
      return Err(kind.error);
    }
    var k := kind.value;
    if k == Header {
      return Ok(pos + SECTION_SIZE);
    }
    var read := ReadBytes(data, pos + SECTION_SIZE, h.dataSize * h.dataCount);
    if read.Err? {
      return Err(read.error);
    }
    var buffer := read.value;
    var records := ReadTypes(buffer, h.dataSize, h.dataCount, ClassSize(k));
    if records.Err? {
      return Err(records.error);
    }
    AppendRecords(psk, k, records.value);
    return Ok(pos + SECTION_SIZE + |buffer|);
  }
}

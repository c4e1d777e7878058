// Reading back what `write_psa` writes: opening the written file gives back
// the bones and the sequences, and leaves the reader at the keys, from
// which `read_sequence_keys` cuts each sequence's frames.
module PsaRoundTrip {
  import opened Bytes
  import opened Wrappers
  import opened SharedData
  import opened Seqs
  import opened Chunks
  import opened PsaData
  import opened OrderedDict
  import opened PsaWriter
  import opened PsaReader

  /* ------------------------------------------------ One chunk at a time */

  /** The bytes from pos to next are the header h followed by payload. */
  ghost predicate ChunkLaid(data: seq<Byte>, pos: nat, h: Section, payload: seq<Byte>, next: nat)
  {
    next == pos + SECTION_SIZE + |payload| <= |data| && data[pos..next] == EncodeSection(h) + payload
  }

  /** A chunk whose header declares the n-byte records rs, which follow it. */
  ghost predicate RecordsLaid(data: seq<Byte>, pos: nat, h: Section, n: nat, rs: seq<seq<Byte>>, next: nat)
  {
    h.dataSize == n && h.dataCount == |rs| && (forall i :: 0 <= i < |rs| ==> |rs[i]| == n)
    && ChunkLaid(data, pos, h, Concat(rs), next)
  }

  /** ANIMHEAD, at the start of the file: nothing is read and the reader moves past the header. */
  lemma HeadAt(st: ReadState, data: seq<Byte>, h: Section, next: nat)
    requires CharArrayValue(h.name) == ANIMHEAD && ChunkLaid(data, 0, h, [], next)
    ensures 0 < |data| && ReadChunk(st, data, 0) == Ok((st, next))
  {
    ReadSectionOfBytes(data, 0, h, []);
    assert PsaKindOf(ANIMHEAD) == AnimHead;
  }

  /** BONENAMES at pos, its records decoding to bones: the bones are appended to those read so far. */
  lemma BonesAt(st: ReadState, data: seq<Byte>, pos: nat, h: Section, rs: seq<seq<Byte>>, bones: seq<PsxBone>, next: nat)
    requires CharArrayValue(h.name) == BONENAMES && RecordsLaid(data, pos, h, PSX_BONE_SIZE, rs, next)
    requires DecodeAll(rs, PSX_BONE_SIZE, DecodePsxBone) == bones
    ensures pos < |data| && ReadChunk(st, data, pos) == Ok((st.(psa := st.psa.(bones := st.psa.bones + bones)), next))
  {
    ReadHeaderAndRecords(data, pos, h, PSX_BONE_SIZE, rs);
    var start := pos + SECTION_SIZE;
    assert ReadRecords(data, start, h, PSX_BONE_SIZE) == Ok((rs, next));
    assert PsaKindOf(BONENAMES) == BoneNames;
    assert ReadBody(st, data, start, h) == ReadBones(st, data, start, h);
  }

  /** ANIMINFO at pos, its records decoding to qs: the sequences, repaired if need be, are filed by name. */
  lemma InfoAt(st: ReadState, data: seq<Byte>, pos: nat, h: Section, rs: seq<seq<Byte>>, qs: seq<Sequence>, next: nat)
    requires CharArrayValue(h.name) == ANIMINFO && RecordsLaid(data, pos, h, SEQUENCE_SIZE, rs, next)
    requires DecodeAll(rs, SEQUENCE_SIZE, DecodeSequence) == qs
    ensures pos < |data| && ReadChunk(st, data, pos)
      == Ok((st.(psa := st.psa.(sequences := PutAll(st.psa.sequences, NamedEntries(Cue4ParseFixed(qs))))), next))
  {
    ReadHeaderAndRecords(data, pos, h, SEQUENCE_SIZE, rs);
    var start := pos + SECTION_SIZE;
    assert ReadRecords(data, start, h, SEQUENCE_SIZE) == Ok((rs, next));
    assert PsaKindOf(ANIMINFO) == AnimInfo;
    assert ReadBody(st, data, start, h) == ReadSequences(st, data, start, h);
  }

  /** ANIMKEYS at pos, followed by its payload: the offset of the keys is recorded and the keys are skipped. */
  lemma KeysAt(st: ReadState, data: seq<Byte>, pos: nat, h: Section, payload: seq<Byte>, next: nat)
    requires CharArrayValue(h.name) == ANIMKEYS && h.dataSize * h.dataCount == |payload|
    requires ChunkLaid(data, pos, h, payload, next)
    ensures pos < |data| && ReadChunk(st, data, pos) == Ok((st.(keysDataOffset := pos + SECTION_SIZE), next))
  {
    ReadSectionOfBytes(data, pos, h, payload);
    assert PsaKindOf(ANIMKEYS) == AnimKeys;
  }

  /* ------------------------------------------- The loop, from each chunk on */

  /** From ANIMKEYS, the last chunk, having stood only at earlier positions. */
  lemma FromKeys(st: ReadState, data: seq<Byte>, pos: nat, h: Section, kd: seq<Byte>, seen: set<nat>)
    requires CharArrayValue(h.name) == ANIMKEYS && h.dataSize * h.dataCount == |kd|
    requires ChunkLaid(data, pos, h, kd, |data|)
    requires forall x :: x in seen ==> x < pos
    ensures ReadFrom(st, data, pos, seen) == Returns(Ok(st.(keysDataOffset := pos + SECTION_SIZE)))
  {
    KeysAt(st, data, pos, h, kd, |data|);
    ReadFromStep(st, data, pos, seen, st.(keysDataOffset := pos + SECTION_SIZE), |data|);
  }

  /** From ANIMINFO, followed by ANIMKEYS. */
  lemma FromInfo(st: ReadState, data: seq<Byte>, pos: nat, hc: Section, rc: seq<seq<Byte>>, qs: seq<Sequence>, p3: nat,
                 hd: Section, kd: seq<Byte>, seen: set<nat>)
    requires CharArrayValue(hc.name) == ANIMINFO && RecordsLaid(data, pos, hc, SEQUENCE_SIZE, rc, p3)
    requires DecodeAll(rc, SEQUENCE_SIZE, DecodeSequence) == qs
    requires CharArrayValue(hd.name) == ANIMKEYS && hd.dataSize * hd.dataCount == |kd|
    requires ChunkLaid(data, p3, hd, kd, |data|)
    requires forall x :: x in seen ==> x < pos
    ensures ReadFrom(st, data, pos, seen)
      == Returns(Ok(st.(psa := st.psa.(sequences := PutAll(st.psa.sequences, NamedEntries(Cue4ParseFixed(qs)))),
                       keysDataOffset := p3 + SECTION_SIZE)))
  {
    var st' := st.(psa := st.psa.(sequences := PutAll(st.psa.sequences, NamedEntries(Cue4ParseFixed(qs)))));
    InfoAt(st, data, pos, hc, rc, qs, p3);
    ReadFromStep(st, data, pos, seen, st', p3);
    FromKeys(st', data, p3, hd, kd, seen + {pos});
  }

  /** From BONENAMES, followed by ANIMINFO and ANIMKEYS. */
  lemma FromBones(st: ReadState, data: seq<Byte>, pos: nat, hb: Section, rb: seq<seq<Byte>>, bones: seq<PsxBone>, p2: nat,
                  hc: Section, rc: seq<seq<Byte>>, qs: seq<Sequence>, p3: nat, hd: Section, kd: seq<Byte>, seen: set<nat>)
    requires CharArrayValue(hb.name) == BONENAMES && RecordsLaid(data, pos, hb, PSX_BONE_SIZE, rb, p2)
    requires DecodeAll(rb, PSX_BONE_SIZE, DecodePsxBone) == bones
    requires CharArrayValue(hc.name) == ANIMINFO && RecordsLaid(data, p2, hc, SEQUENCE_SIZE, rc, p3)
    requires DecodeAll(rc, SEQUENCE_SIZE, DecodeSequence) == qs
    requires CharArrayValue(hd.name) == ANIMKEYS && hd.dataSize * hd.dataCount == |kd|
    requires ChunkLaid(data, p3, hd, kd, |data|)
    requires forall x :: x in seen ==> x < pos
    ensures ReadFrom(st, data, pos, seen)
      == Returns(Ok(st.(psa := st.psa.(bones := st.psa.bones + bones,
                                       sequences := PutAll(st.psa.sequences, NamedEntries(Cue4ParseFixed(qs)))),
                       keysDataOffset := p3 + SECTION_SIZE)))
  {
    var st' := st.(psa := st.psa.(bones := st.psa.bones + bones));
    BonesAt(st, data, pos, hb, rb, bones, p2);
    ReadFromStep(st, data, pos, seen, st', p2);
    FromInfo(st', data, p2, hc, rc, qs, p3, hd, kd, seen + {pos});
  }

  /** The records of a list of bones, decoded, give the bones. */
  lemma BonesDecoded(bones: seq<PsxBone>)
    ensures forall i :: 0 <= i < |bones| ==> |Map(bones, EncodePsxBone)[i]| == PSX_BONE_SIZE
    ensures DecodeAll(Map(bones, EncodePsxBone), PSX_BONE_SIZE, DecodePsxBone) == bones
  {
    forall i | 0 <= i < |bones| {
      PsxBoneRoundTrip(bones[i]);
    }
    DecodeAllOfEncoded(bones, PSX_BONE_SIZE, EncodePsxBone, DecodePsxBone);
  }

  /** The records of a list of sequences, decoded, give the sequences. */
  lemma SequencesDecoded(qs: seq<Sequence>)
    ensures forall i :: 0 <= i < |qs| ==> |Map(qs, EncodeSequence)[i]| == SEQUENCE_SIZE
    ensures DecodeAll(Map(qs, EncodeSequence), SEQUENCE_SIZE, DecodeSequence) == qs
  {
    forall i | 0 <= i < |qs| {
      SequenceRoundTrip(qs[i]);
    }
    DecodeAllOfEncoded(qs, SEQUENCE_SIZE, EncodeSequence, DecodeSequence);
  }

  /* --------------------------------------------------------- A whole file */

  /**
   * The layout write_psa produces: ANIMHEAD with header ha at the start;
   * BONENAMES with header hb and records rb decoding to bones; ANIMINFO at
   * p2 with header hc and records rc decoding to qs; ANIMKEYS at p3 with
   * header hd and payload kd, to the end of the file.
   */
  ghost predicate PsaLaidOut(data: seq<Byte>, ha: Section, hb: Section, hc: Section, hd: Section,
                             rb: seq<seq<Byte>>, rc: seq<seq<Byte>>, kd: seq<Byte>, bones: seq<PsxBone>, qs: seq<Sequence>,
                             p2: nat, p3: nat)
  {
    CharArrayValue(ha.name) == ANIMHEAD && ChunkLaid(data, 0, ha, [], SECTION_SIZE)
    && CharArrayValue(hb.name) == BONENAMES && RecordsLaid(data, SECTION_SIZE, hb, PSX_BONE_SIZE, rb, p2)
    && DecodeAll(rb, PSX_BONE_SIZE, DecodePsxBone) == bones
    && CharArrayValue(hc.name) == ANIMINFO && RecordsLaid(data, p2, hc, SEQUENCE_SIZE, rc, p3)
    && DecodeAll(rc, SEQUENCE_SIZE, DecodeSequence) == qs
    && CharArrayValue(hd.name) == ANIMKEYS && hd.dataSize * hd.dataCount == |kd|
    && ChunkLaid(data, p3, hd, kd, |data|)
  }

  /**
   * Bytes laid out so read back as the bones and the sequences (repaired
   * if need be) filed by name into an empty dictionary, with the keys left
   * in the file just after the ANIMKEYS header.
   */
  lemma ReadLaidOut(data: seq<Byte>, ha: Section, hb: Section, hc: Section, hd: Section,
                    rb: seq<seq<Byte>>, rc: seq<seq<Byte>>, kd: seq<Byte>, bones: seq<PsxBone>, qs: seq<Sequence>,
                    p2: nat, p3: nat)
    requires PsaLaidOut(data, ha, hb, hc, hd, rb, rc, kd, bones, qs, p2, p3)
    ensures ReadPsa(data)
      == Returns(Ok(ReadState(PsaLists(bones, PutAll(OrderedDict.Empty(), NamedEntries(Cue4ParseFixed(qs))), []),
                              p3 + SECTION_SIZE)))
  {
    var st := ReadState(EmptyPsa(), 0);
    var none: set<nat> := {};
    HeadAt(st, data, ha, SECTION_SIZE);
    ReadFromStep(st, data, 0, none, st, SECTION_SIZE);
    FromBones(st, data, SECTION_SIZE, hb, rb, bones, p2, hc, rc, qs, p3, hd, kd, none + {0});
    assert st.psa.bones + bones == bones;
  }

  /** The n-byte records rs decode, one by one, to xs. */
  ghost predicate DecodesTo<T>(rs: seq<seq<Byte>>, n: nat, decode: seq<Byte> --> T, xs: seq<T>)
  {
    (forall i :: 0 <= i < |rs| ==> |rs[i]| == n && decode.requires(rs[i])) && DecodeAll(rs, n, decode) == xs
  }

  /** A chunk as write_section lays it out: its header, naming it and declaring n-byte records rs, then rs. */
  ghost predicate RecordChunkOut(b: seq<Byte>, h: Section, name: seq<Byte>, n: nat, rs: seq<seq<Byte>>)
  {
    b == EncodeSection(h) + Concat(rs) && CharArrayValue(h.name) == name
    && h.dataSize == n && h.dataCount == |rs| && (forall i :: 0 <= i < |rs| ==> |rs[i]| == n)
    && |b| == SECTION_SIZE + n * |rs|
  }

  /**
   * A header chunk followed by three record chunks, the last taken as a
   * plain payload: the layout PsaLaidOut describes, with ANIMINFO and
   * ANIMKEYS where the chunks before them end.
   */
  lemma FourLaid(a: seq<Byte>, b: seq<Byte>, c: seq<Byte>, d: seq<Byte>, ha: Section, hb: Section, hc: Section, hd: Section,
                 rb: seq<seq<Byte>>, rc: seq<seq<Byte>>, rd: seq<seq<Byte>>, bones: seq<PsxBone>, qs: seq<Sequence>,
                 p2: nat, p3: nat)
    requires a == EncodeSection(ha) && CharArrayValue(ha.name) == ANIMHEAD
    requires RecordChunkOut(b, hb, BONENAMES, PSX_BONE_SIZE, rb) && DecodesTo(rb, PSX_BONE_SIZE, DecodePsxBone, bones)
    requires RecordChunkOut(c, hc, ANIMINFO, SEQUENCE_SIZE, rc) && DecodesTo(rc, SEQUENCE_SIZE, DecodeSequence, qs)
    requires RecordChunkOut(d, hd, ANIMKEYS, KEY_SIZE, rd)
    requires p2 == |a| + |b| && p3 == p2 + |c|
    ensures PsaLaidOut(a + b + c + d, ha, hb, hc, hd, rb, rc, Concat(rd), bones, qs, p2, p3)
  {
    var f := a + b + c + d;
    Split4(a, b, c, d);
    assert EncodeSection(ha) + [] == a;
    ConcatLength(rd, KEY_SIZE);
  }

  /** The pieces of a + b + c + d, each where the one before it ends. */
  lemma Split4(a: seq<Byte>, b: seq<Byte>, c: seq<Byte>, d: seq<Byte>)
    ensures var f := a + b + c + d;
      f[0..|a|] == a && f[|a|..|a| + |b|] == b
      && f[|a| + |b|..|a| + |b| + |c|] == c && f[|a| + |b| + |c|..|f|] == d
  {
  }

  /** The BONENAMES chunk of a written file: one 120-byte record per bone, each decoding to its bone. */
  lemma BonesChunkOut(p: PsaLists)
    requires Fits(p)
    ensures RecordChunkOut(ChunkBytes(BoneNamesChunk(p)), ChunkHeader(BoneNamesChunk(p)), BONENAMES, PSX_BONE_SIZE,
                           Map(p.bones, EncodePsxBone))
    ensures DecodesTo(Map(p.bones, EncodePsxBone), PSX_BONE_SIZE, DecodePsxBone, p.bones)
  {
    BonesDecoded(p.bones);
    RecordChunk(BoneNamesChunk(p));
  }

  /** The ANIMINFO chunk of a written file: one 168-byte record per sequence, in insertion order. */
  lemma InfoChunkOut(p: PsaLists)
    requires Fits(p)
    ensures RecordChunkOut(ChunkBytes(AnimInfoChunk(p)), ChunkHeader(AnimInfoChunk(p)), ANIMINFO, SEQUENCE_SIZE,
                           Map(p.sequences.Values(), EncodeSequence))
    ensures DecodesTo(Map(p.sequences.Values(), EncodeSequence), SEQUENCE_SIZE, DecodeSequence, p.sequences.Values())
  {
    SequencesDecoded(p.sequences.Values());
    RecordChunk(AnimInfoChunk(p));
  }

  /** The ANIMKEYS chunk of a written file: one 32-byte record per key. */
  lemma KeysChunkOut(p: PsaLists)
    requires Fits(p)
    ensures RecordChunkOut(ChunkBytes(AnimKeysChunk(p)), ChunkHeader(AnimKeysChunk(p)), ANIMKEYS, KEY_SIZE,
                           Map(p.keys, EncodeKey))
  {
    RecordChunk(AnimKeysChunk(p));
  }

  /** write_psa's output for p is laid out as ReadLaidOut expects. */
  lemma WrittenLaidOut(p: PsaLists)
    requires Fits(p)
    ensures PsaLaidOut(PsaFile(p), ChunkHeader(AnimHeadChunk()), ChunkHeader(BoneNamesChunk(p)),
      ChunkHeader(AnimInfoChunk(p)), ChunkHeader(AnimKeysChunk(p)),
      Map(p.bones, EncodePsxBone), Map(p.sequences.Values(), EncodeSequence), Concat(Map(p.keys, EncodeKey)),
      p.bones, p.sequences.Values(), AnimInfoAt(p), AnimKeysAt(p))
  {
    assert PsaFile(p) == ChunkBytes(AnimHeadChunk()) + ChunkBytes(BoneNamesChunk(p))
      + ChunkBytes(AnimInfoChunk(p)) + ChunkBytes(AnimKeysChunk(p));
    HeadChunkBytes();
    BonesChunkOut(p);
    InfoChunkOut(p);
    KeysChunkOut(p);
    ChunksLaidOut(p, ChunkBytes(AnimHeadChunk()), ChunkBytes(BoneNamesChunk(p)), ChunkBytes(AnimInfoChunk(p)),
      ChunkBytes(AnimKeysChunk(p)));
  }

  /** The four chunks of write_psa's output for p, joined, are laid out as ReadLaidOut expects. */
  lemma ChunksLaidOut(p: PsaLists, a: seq<Byte>, b: seq<Byte>, c: seq<Byte>, d: seq<Byte>)
    requires a == EncodeSection(ChunkHeader(AnimHeadChunk()))
    requires CharArrayValue(ChunkHeader(AnimHeadChunk()).name) == ANIMHEAD
    requires RecordChunkOut(b, ChunkHeader(BoneNamesChunk(p)), BONENAMES, PSX_BONE_SIZE, Map(p.bones, EncodePsxBone))
    requires DecodesTo(Map(p.bones, EncodePsxBone), PSX_BONE_SIZE, DecodePsxBone, p.bones)
    requires RecordChunkOut(c, ChunkHeader(AnimInfoChunk(p)), ANIMINFO, SEQUENCE_SIZE, Map(p.sequences.Values(), EncodeSequence))
    requires DecodesTo(Map(p.sequences.Values(), EncodeSequence), SEQUENCE_SIZE, DecodeSequence, p.sequences.Values())
    requires RecordChunkOut(d, ChunkHeader(AnimKeysChunk(p)), ANIMKEYS, KEY_SIZE, Map(p.keys, EncodeKey))
    ensures PsaLaidOut(a + b + c + d, ChunkHeader(AnimHeadChunk()), ChunkHeader(BoneNamesChunk(p)),
      ChunkHeader(AnimInfoChunk(p)), ChunkHeader(AnimKeysChunk(p)),
      Map(p.bones, EncodePsxBone), Map(p.sequences.Values(), EncodeSequence), Concat(Map(p.keys, EncodeKey)),
      p.bones, p.sequences.Values(), AnimInfoAt(p), AnimKeysAt(p))
  {
    FourLaid(a, b, c, d, ChunkHeader(AnimHeadChunk()), ChunkHeader(BoneNamesChunk(p)),
      ChunkHeader(AnimInfoChunk(p)), ChunkHeader(AnimKeysChunk(p)),
      Map(p.bones, EncodePsxBone), Map(p.sequences.Values(), EncodeSequence), Map(p.keys, EncodeKey),
      p.bones, p.sequences.Values(), AnimInfoAt(p), AnimKeysAt(p));
  }

  /**
   * write_psa's file reads back as p's bones, and p's sequences (repaired
   * if the first one shows the CUE4Parse symptom) filed by name into an
   * empty dictionary; no keys are read, and the offset of the keys is
   * just after the ANIMKEYS header. The loop stops at the end of the file.
   */
  lemma PsaRoundTrip(p: PsaLists)
    requires Fits(p)
    ensures ReadPsa(PsaFile(p))
      == Returns(Ok(ReadState(PsaLists(p.bones, PutAll(OrderedDict.Empty(), NamedEntries(Cue4ParseFixed(p.sequences.Values()))), []),
                              AnimKeysAt(p) + SECTION_SIZE)))
  {
    WrittenLaidOut(p);
    ReadWritten(p, PsaFile(p));
  }

  /** Bytes laid out as write_psa lays out p read back as PsaRoundTrip states. */
  lemma ReadWritten(p: PsaLists, data: seq<Byte>)
    requires PsaLaidOut(data, ChunkHeader(AnimHeadChunk()), ChunkHeader(BoneNamesChunk(p)),
      ChunkHeader(AnimInfoChunk(p)), ChunkHeader(AnimKeysChunk(p)),
      Map(p.bones, EncodePsxBone), Map(p.sequences.Values(), EncodeSequence), Concat(Map(p.keys, EncodeKey)),
      p.bones, p.sequences.Values(), AnimInfoAt(p), AnimKeysAt(p))
    ensures ReadPsa(data)
      == Returns(Ok(ReadState(PsaLists(p.bones, PutAll(OrderedDict.Empty(), NamedEntries(Cue4ParseFixed(p.sequences.Values()))), []),
                              AnimKeysAt(p) + SECTION_SIZE)))
  {
    ReadLaidOut(data, ChunkHeader(AnimHeadChunk()), ChunkHeader(BoneNamesChunk(p)),
      ChunkHeader(AnimInfoChunk(p)), ChunkHeader(AnimKeysChunk(p)),
      Map(p.bones, EncodePsxBone), Map(p.sequences.Values(), EncodeSequence), Concat(Map(p.keys, EncodeKey)),
      p.bones, p.sequences.Values(), AnimInfoAt(p), AnimKeysAt(p));
  }

  /**
   * A dictionary as the exporter builds it: no name twice, and every
   * sequence filed under its own name.
   */
  ghost predicate FiledByName(d: Dict<seq<Byte>, Sequence>)
  {
    d.Valid() && forall i :: 0 <= i < |d.entries| ==> d.entries[i].0 == SequenceKey(d.entries[i].1)
  }

  /** Filing the values of such a dictionary by name, in order, into an empty one gives it back. */
  lemma RefiledByName(d: Dict<seq<Byte>, Sequence>)
    requires FiledByName(d) && !HasCue4ParseIssue(d.Values())
    ensures PutAll(OrderedDict.Empty(), NamedEntries(Cue4ParseFixed(d.Values()))) == d
  {
    var entries := NamedEntries(d.Values());
    assert entries == d.entries;
    PutAllDistinct(OrderedDict.Empty(), entries);
    assert [] + entries == entries;
  }

  /**
   * When the sequences are filed by name and the first does not show the
   * CUE4Parse symptom, opening the written file gives back the sequences
   * exactly, in their order.
   */
  lemma PsaSequencesRoundTrip(p: PsaLists)
    requires Fits(p) && FiledByName(p.sequences) && !HasCue4ParseIssue(p.sequences.Values())
    ensures ReadPsa(PsaFile(p)) == Returns(Ok(ReadState(PsaLists(p.bones, p.sequences, []), AnimKeysAt(p) + SECTION_SIZE)))
  {
    PsaRoundTrip(p);
    RefiledByName(p.sequences);
  }

  /* ------------------------------------------------------------- The keys */

  /** Keys lo .. hi of a list of n-byte encoded items, cut from their join. */
  lemma ConcatMapSlice<T>(xs: seq<T>, f: T -> seq<Byte>, n: nat, lo: nat, hi: nat)
    requires lo <= hi <= |xs|
    requires forall i :: 0 <= i < |xs| ==> |f(xs[i])| == n
    ensures |Concat(Map(xs, f))| == |xs| * n
    ensures lo * n <= hi * n <= |xs| * n
    ensures Concat(Map(xs, f))[lo * n..hi * n] == Concat(Map(xs[lo..hi], f))
  {
    var a, b, c := xs[..lo], xs[lo..hi], xs[hi..];
    assert xs == a + b + c;
    MapConcat(a + b, c, f);
    MapConcat(a, b, f);
    ConcatSplit(Map(a, f) + Map(b, f), Map(c, f));
    ConcatSplit(Map(a, f), Map(b, f));
    ConcatLength(Map(a, f), n);
    ConcatLength(Map(b, f), n);
    ConcatLength(Map(xs, f), n);
    MulMono(lo, hi, n);
    MulMono(hi, |xs|, n);
    assert |b| * n == hi * n - lo * n by {
      MulSub(hi, lo, n);
    }
  }

  lemma MulMono(a: nat, b: nat, n: nat)
    requires a <= b
    ensures a * n <= b * n
  {
  }

  lemma MulSub(a: nat, b: nat, n: nat)
    requires b <= a
    ensures (a - b) * n == a * n - b * n
  {
  }

  /** Keys stored from at on: reading them, cutting them into records and decoding these gives them back. */
  lemma KeysReadAt(data: seq<Byte>, at: nat, keys: seq<Key>)
    requires at + KEY_SIZE * |keys| <= |data|
    requires data[at..at + KEY_SIZE * |keys|] == Concat(Map(keys, EncodeKey))
    ensures ReadBytes(data, at, KEY_SIZE * |keys|) == Ok(Concat(Map(keys, EncodeKey)))
    ensures RecordSlices(Concat(Map(keys, EncodeKey)), KEY_SIZE, |keys|, KEY_SIZE, 0) == Ok(Map(keys, EncodeKey))
    ensures DecodesTo(Map(keys, EncodeKey), KEY_SIZE, DecodeKey, keys)
  {
    EncodedAt(data, at, keys, EncodeKey, KEY_SIZE);
    KeysDecoded(keys);
  }

  /**
   * Items encoded in n bytes each, stored from at on: reading n bytes per
   * item and cutting them into n-byte records gives the encoded items.
   */
  lemma EncodedAt<T>(data: seq<Byte>, at: nat, xs: seq<T>, encode: T -> seq<Byte>, n: nat)
    requires forall i :: 0 <= i < |xs| ==> |encode(xs[i])| == n
    requires at + n * |xs| <= |data|
    requires data[at..at + n * |xs|] == Concat(Map(xs, encode))
    ensures ReadBytes(data, at, n * |xs|) == Ok(Concat(Map(xs, encode)))
    ensures RecordSlices(Concat(Map(xs, encode)), n, |xs|, n, 0) == Ok(Map(xs, encode))
  {
    var rs := Map(xs, encode);
    ConcatLength(rs, n);
    ReadBytesOfStored(data, at, Concat(rs));
    RecordSlicesOfJoin(rs, n);
  }

  /** The records of a list of keys, decoded, give the keys. */
  lemma KeysDecoded(keys: seq<Key>)
    ensures DecodesTo(Map(keys, EncodeKey), KEY_SIZE, DecodeKey, keys)
  {
    forall i | 0 <= i < |keys| {
      KeyRoundTrip(keys[i]);
    }
    DecodeAllOfEncoded(keys, KEY_SIZE, EncodeKey, DecodeKey);
  }

  /** A slice of a slice is a slice of the whole. */
  lemma SliceOfSlice<T>(s: seq<T>, a: nat, b: nat, i: nat, j: nat)
    requires a <= b <= |s| && i <= j <= b - a
    ensures s[a..b][i..j] == s[a + i..a + j]
  {
    var x, y := s[a..b][i..j], s[a + i..a + j];
    assert |x| == |y|;
    forall k | 0 <= k < |x|
      ensures x[k] == y[k]
    {
      assert x[k] == s[a..b][i + k] == s[a + i + k];
    }
  }

  /** The keys lo .. hi of keys stored from offset on are stored from offset + lo * 32 on. */
  lemma StoredSlice(data: seq<Byte>, offset: nat, keys: seq<Key>, lo: nat, hi: nat)
    requires lo <= hi <= |keys|
    requires offset + KEY_SIZE * |keys| <= |data|
    requires data[offset..offset + KEY_SIZE * |keys|] == Concat(Map(keys, EncodeKey))
    ensures offset + lo * KEY_SIZE + KEY_SIZE * |keys[lo..hi]| <= |data|
    ensures data[offset + lo * KEY_SIZE..offset + lo * KEY_SIZE + KEY_SIZE * |keys[lo..hi]|]
      == Concat(Map(keys[lo..hi], EncodeKey))
  {
    ConcatMapSlice(keys, EncodeKey, KEY_SIZE, lo, hi);
    MulSub(hi, lo, KEY_SIZE);
    assert lo * KEY_SIZE + KEY_SIZE * |keys[lo..hi]| == hi * KEY_SIZE;
    SliceOfSlice(data, offset, offset + KEY_SIZE * |keys|, lo * KEY_SIZE, hi * KEY_SIZE);
  }

  /**
   * `read_sequence_keys` for the sequence q filed under name, when the
   * keys sub are stored where it seeks to and are as many as it reads.
   */
  lemma SequenceKeysAt(data: seq<Byte>, keysDataOffset: nat, r: PsaLists, name: seq<Byte>, q: Sequence,
                       at: nat, sub: seq<Key>)
    requires r.sequences.Get(name) == Ok(q)
    requires at == keysDataOffset + q.frameStartIndex * |r.bones| * KEY_SIZE
    requires |sub| == q.frameCount * |r.bones| && KEY_SIZE * |r.bones| * q.frameCount == KEY_SIZE * |sub|
    requires at + KEY_SIZE * |sub| <= |data|
    requires data[at..at + KEY_SIZE * |sub|] == Concat(Map(sub, EncodeKey))
    ensures SequenceKeys(data, keysDataOffset, r, name) == Ok(sub)
  {
    KeysReadAt(data, at, sub);
    assert (if at < |data| then at else |data|) == at;
  }

  /**
   * `read_sequence_keys` on keys stored at keysDataOffset: a sequence q
   * whose frames lie within the stored keys gets frame_count * bone_count
   * of them, starting at key frame_start_index * bone_count.
   */
  lemma SequenceKeysOfStored(data: seq<Byte>, keysDataOffset: nat, r: PsaLists, name: seq<Byte>, q: Sequence,
                             keys: seq<Key>)
    requires r.sequences.Get(name) == Ok(q) && FramesWithin(q, |r.bones|, |keys|)
    requires keysDataOffset + KEY_SIZE * |keys| <= |data|
    requires data[keysDataOffset..keysDataOffset + KEY_SIZE * |keys|] == Concat(Map(keys, EncodeKey))
    ensures SequenceKeys(data, keysDataOffset, r, name) == Ok(SequenceFrames(keys, q, |r.bones|))
  {
    var bc := |r.bones|;
    var s, c := q.frameStartIndex, q.frameCount;
    var lo, hi := s * bc, (s + c) * bc;
    MulMono(s, s + c, bc);
    var sub := keys[lo..hi];
    StoredSlice(data, keysDataOffset, keys, lo, hi);
    MulSub(s + c, s, bc);
    assert |sub| == c * bc;
    MulComm3(KEY_SIZE, bc, c);
    SequenceKeysAt(data, keysDataOffset, r, name, q, keysDataOffset + lo * KEY_SIZE, sub);
  }

  /** The frames of q lie within keyCount keys, bone_count keys per frame. */
  predicate FramesWithin(q: Sequence, boneCount: nat, keyCount: nat)
  {
    0 <= q.frameStartIndex && 0 <= q.frameCount && (q.frameStartIndex + q.frameCount) * boneCount <= keyCount
  }

  /**
   * The keys the exporter writes for q: frame_count frames of bone_count
   * keys each, from frame frame_start_index on.
   */
  function SequenceFrames(keys: seq<Key>, q: Sequence, boneCount: nat): (r: seq<Key>)
    requires FramesWithin(q, boneCount, |keys|)
    ensures |r| == q.frameCount * boneCount
    ensures forall i :: 0 <= i < |r| ==> r[i] == keys[q.frameStartIndex * boneCount + i]
  {
    MulMono(q.frameStartIndex, q.frameStartIndex + q.frameCount, boneCount);
    MulSub(q.frameStartIndex + q.frameCount, q.frameStartIndex, boneCount);
    keys[q.frameStartIndex * boneCount..(q.frameStartIndex + q.frameCount) * boneCount]
  }

  lemma MulComm3(a: nat, b: nat, c: nat)
    ensures a * b * c == a * (c * b)
  {
  }

  /** Keys stored after the ANIMKEYS header, to the end of the file. */
  lemma KeysStored(data: seq<Byte>, pos: nat, h: Section, keys: seq<Key>)
    requires ChunkLaid(data, pos, h, Concat(Map(keys, EncodeKey)), |data|)
    ensures pos + SECTION_SIZE + KEY_SIZE * |keys| <= |data|
    ensures data[pos + SECTION_SIZE..pos + SECTION_SIZE + KEY_SIZE * |keys|] == Concat(Map(keys, EncodeKey))
  {
    ConcatLength(Map(keys, EncodeKey), KEY_SIZE);
    var kd := Concat(Map(keys, EncodeKey));
    ReadSectionOfBytes(data, pos, h, kd);
  }

  /**
   * With p's keys written as the ANIMKEYS chunk at the place write_psa
   * puts it, the keys of a sequence read back as those written for it.
   */
  lemma KeysOfLaidOut(p: PsaLists, data: seq<Byte>, h: Section, name: seq<Byte>, q: Sequence)
    requires ChunkLaid(data, AnimKeysAt(p), h, Concat(Map(p.keys, EncodeKey)), |data|)
    requires p.sequences.Get(name) == Ok(q) && FramesWithin(q, |p.bones|, |p.keys|)
    ensures SequenceKeys(data, AnimKeysAt(p) + SECTION_SIZE, PsaLists(p.bones, p.sequences, []), name)
      == Ok(SequenceFrames(p.keys, q, |p.bones|))
  {
    KeysStored(data, AnimKeysAt(p), h, p.keys);
    SequenceKeysOfStored(data, AnimKeysAt(p) + SECTION_SIZE, PsaLists(p.bones, p.sequences, []), name, q, p.keys);
  }

  /**
   * The keys of a written file: after opening it, the keys of a sequence
   * filed by name whose frames lie within the written keys are read back
   * as the frames written for it.
   */
  lemma PsaKeysRoundTrip(p: PsaLists, name: seq<Byte>, q: Sequence)
    requires Fits(p) && FiledByName(p.sequences) && !HasCue4ParseIssue(p.sequences.Values())
    requires p.sequences.Get(name) == Ok(q) && FramesWithin(q, |p.bones|, |p.keys|)
    ensures ReadPsa(PsaFile(p)) == Returns(Ok(ReadState(PsaLists(p.bones, p.sequences, []), AnimKeysAt(p) + SECTION_SIZE)))
    ensures SequenceKeys(PsaFile(p), AnimKeysAt(p) + SECTION_SIZE, PsaLists(p.bones, p.sequences, []), name)
      == Ok(SequenceFrames(p.keys, q, |p.bones|))
  {
    PsaSequencesRoundTrip(p);
    WrittenLaidOut(p);
    KeysOfLaidOut(p, PsaFile(p), ChunkHeader(AnimKeysChunk(p)), name, q);
  }
}

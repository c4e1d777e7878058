// `PsaReader` (io_scene_psk_psa/psa/reader.py): the chunk loop of `_read`,
// which files the bones and the sequences and remembers where the keys
// start; the repair of files written by CUE4Parse before its issue 103 was
// fixed; and the key reads that go back to the file for one sequence.
module PsaReader {
  import opened Bytes
  import opened Wrappers
  import opened SharedData
  import opened Seqs
  import opened Chunks
  import opened PsaData
  import opened OrderedDict

  /* ------------------------------------------------- The CUE4Parse repair */

  /** The sum of the frame counts of the first n sequences. */
  function FrameCountSum(qs: seq<Sequence>, n: nat): int
    requires n <= |qs|
  {
    if n == 0 then 0 else FrameCountSum(qs, n - 1) + qs[n - 1].frameCount
  }

  /** The symptom of the broken files: the first sequence starts at its own frame count. */
  predicate HasCue4ParseIssue(qs: seq<Sequence>)
  {
    |qs| > 0 && qs[0].frameStartIndex == qs[0].frameCount
  }

  /** The sequence q with its frame_start_index field set to start. */
  function StartAt(q: Sequence, start: int): (r: Sequence)
  {
    q.(frameStartIndex := I32.Wrap(start))
  }

  /**
   * The sequences after `_try_fix_cue4parse_issue_103`: when the symptom
   * shows, every frame_start_index becomes the number of frames of the
   * sequences before it, stored in the 32-bit field.
   */
  function Cue4ParseFixed(qs: seq<Sequence>): (r: seq<Sequence>)
    ensures |r| == |qs|
  {
    if HasCue4ParseIssue(qs) then FixedPrefix(qs, |qs|) else qs
  }

  /** `_try_fix_cue4parse_issue_103`: the running counter, written into the list in place. */
  method TryFixCue4ParseIssue103(sequences: array<Sequence>) returns (fixed: bool)
    modifies sequences
    ensures fixed == HasCue4ParseIssue(old(sequences[..]))
    ensures sequences[..] == Cue4ParseFixed(old(sequences[..]))
  {
    if sequences.Length > 0 && sequences[0].frameStartIndex == sequences[0].frameCount {
      ghost var qs := sequences[..];
      var frameStartIndex := 0;
      for i := 0 to sequences.Length
        invariant frameStartIndex == FrameCountSum(qs, i)
        invariant sequences[..] == FixedPrefix(qs, i)
      {
        FixedPrefixAt(qs, i, i);
        var q := sequences[i];
        sequences[i] := StartAt(q, frameStartIndex);
        frameStartIndex := frameStartIndex + q.frameCount;
      }
      forall j | 0 <= j < |qs| {
        FixedPrefixAt(qs, |qs|, j);
      }
      return true;
    }
    return false;
  }

  /** The list part way through the repair: the first n sequences have their new starts. */
  function FixedPrefix(qs: seq<Sequence>, n: nat): (r: seq<Sequence>)
    requires n <= |qs|
    ensures |r| == |qs|
  {
    if n == 0 then qs else FixedPrefix(qs, n - 1)[n - 1 := StartAt(qs[n - 1], FrameCountSum(qs, n - 1))]
  }

  lemma {:induction false} FixedPrefixAt(qs: seq<Sequence>, n: nat, j: nat)
    requires n <= |qs| && j < |qs|
    ensures FixedPrefix(qs, n)[j] == if j < n then StartAt(qs[j], FrameCountSum(qs, j)) else qs[j]
  {
    if n > 0 && j != n - 1 {
      FixedPrefixAt(qs, n - 1, j);
    }
  }

  lemma Cue4ParseFixedAt(qs: seq<Sequence>, i: nat)
    requires HasCue4ParseIssue(qs) && i < |qs|
    ensures Cue4ParseFixed(qs)[i] == StartAt(qs[i], FrameCountSum(qs, i))
  {
    FixedPrefixAt(qs, |qs|, i);
  }

  /**
   * What the repair changes: nothing without the symptom, and with it
   * only the frame_start_index fields.
   */
  lemma Cue4ParseFixOnlyStarts(qs: seq<Sequence>)
    ensures !HasCue4ParseIssue(qs) ==> Cue4ParseFixed(qs) == qs
    ensures forall i :: 0 <= i < |qs| ==>
      Cue4ParseFixed(qs)[i].(frameStartIndex := qs[i].frameStartIndex) == qs[i]
  {
    if HasCue4ParseIssue(qs) {
      forall i | 0 <= i < |qs| {
        Cue4ParseFixedAt(qs, i);
      }
    }
  }

  /**
   * The starts the repair writes: the first is 0 and each next one is the
   * previous start plus the previous frame count (in 32 bits).
   */
  lemma Cue4ParseFixRunningSum(qs: seq<Sequence>)
    requires HasCue4ParseIssue(qs)
    ensures Cue4ParseFixed(qs)[0].frameStartIndex == 0
    ensures forall i :: 0 <= i < |qs| - 1 ==>
      Cue4ParseFixed(qs)[i + 1].frameStartIndex
      == I32.Wrap(Cue4ParseFixed(qs)[i].frameStartIndex + Cue4ParseFixed(qs)[i].frameCount)
  {
    Cue4ParseFixedAt(qs, 0);
    forall i | 0 <= i < |qs| - 1
      ensures Cue4ParseFixed(qs)[i + 1].frameStartIndex
        == I32.Wrap(Cue4ParseFixed(qs)[i].frameStartIndex + Cue4ParseFixed(qs)[i].frameCount)
    {
      RunningSumAt(qs, i);
    }
  }

  lemma RunningSumAt(qs: seq<Sequence>, i: nat)
    requires HasCue4ParseIssue(qs) && i + 1 < |qs|
    ensures Cue4ParseFixed(qs)[i + 1].frameStartIndex
      == I32.Wrap(Cue4ParseFixed(qs)[i].frameStartIndex + Cue4ParseFixed(qs)[i].frameCount)
  {
    var r := Cue4ParseFixed(qs);
    var a, c := FrameCountSum(qs, i), qs[i].frameCount;
    assert r[i].frameStartIndex == I32.Wrap(a) && r[i].frameCount == c by {
      Cue4ParseFixedAt(qs, i);
    }
    assert r[i + 1].frameStartIndex == I32.Wrap(a + c) by {
      Cue4ParseFixedAt(qs, i + 1);
    }
    WrapAdd(r[i].frameStartIndex, a, c);
  }

  /** Storing a sum in 32 bits: it does not matter whether the first term was stored first. */
  lemma WrapAdd(x: int, a: int, c: int)
    requires x == I32.Wrap(a)
    ensures I32.Wrap(x + c) == I32.Wrap(a + c)
  {
    assert I32.Modulus() == 0x1_0000_0000;
    assert (a % 0x1_0000_0000 + c) % 0x1_0000_0000 == (a + c) % 0x1_0000_0000;
    assert (a % 0x1_0000_0000 - 0x1_0000_0000 + c) % 0x1_0000_0000 == (a + c) % 0x1_0000_0000;
  }

  /**
   * Repairing twice is repairing once: after a repair the first start is 0,
   * so a second one acts only when the first frame count is 0, and then
   * writes the same running sums again.
   */
  lemma Cue4ParseFixIdempotent(qs: seq<Sequence>)
    ensures Cue4ParseFixed(Cue4ParseFixed(qs)) == Cue4ParseFixed(qs)
  {
    var r := Cue4ParseFixed(qs);
    if HasCue4ParseIssue(qs) {
      forall i | 0 <= i < |qs| ensures r[i] == StartAt(qs[i], FrameCountSum(qs, i)) {
        Cue4ParseFixedAt(qs, i);
      }
      if HasCue4ParseIssue(r) {
        FrameCountSumsAgree(qs, r, |qs|);
        forall i | 0 <= i < |qs| ensures Cue4ParseFixed(r)[i] == r[i] {
          Cue4ParseFixedAt(r, i);
        }
      }
    }
  }

  /** Two lists whose frame counts agree have the same running sums. */
  lemma {:induction false} FrameCountSumsAgree(qs: seq<Sequence>, rs: seq<Sequence>, n: nat)
    requires n <= |qs| == |rs|
    requires forall i :: 0 <= i < |qs| ==> rs[i].frameCount == qs[i].frameCount
    ensures forall i :: 0 <= i <= n ==> FrameCountSum(rs, i) == FrameCountSum(qs, i)
  {
    if n > 0 {
      FrameCountSumsAgree(qs, rs, n - 1);
    }
  }

  /** Sequences whose starts are already the running sums are left as they are, symptom or not. */
  lemma Cue4ParseFixOfRunningSums(qs: seq<Sequence>)
    requires forall i :: 0 <= i < |qs| ==> qs[i].frameStartIndex == I32.Wrap(FrameCountSum(qs, i))
    ensures Cue4ParseFixed(qs) == qs
  {
    if HasCue4ParseIssue(qs) {
      forall i | 0 <= i < |qs| ensures Cue4ParseFixed(qs)[i] == qs[i] {
        Cue4ParseFixedAt(qs, i);
      }
    }
  }

  /* ----------------------------------------------------------- The loop */

  /** The four names `_read` knows; any other chunk is skipped. */
  datatype PsaKind = AnimHead | BoneNames | AnimInfo | AnimKeys | Unrecognized

  function PsaKindOf(name: seq<Byte>): (k: PsaKind)
    ensures k.Unrecognized? <==> name !in {ANIMHEAD, BONENAMES, ANIMINFO, ANIMKEYS}
  {
    if name == ANIMHEAD then AnimHead
    else if name == BONENAMES then BoneNames
    else if name == ANIMINFO then AnimInfo
    else if name == ANIMKEYS then AnimKeys
    else Unrecognized
  }

  /** What `_read` builds: the Psa, and the `keys_data_offset` of the reader. */
  datatype ReadState = ReadState(psa: PsaLists, keysDataOffset: int)

  /** The dictionary entries `psa.sequences[sequence.name.decode()] = sequence` makes, in order. */
  function NamedEntries(qs: seq<Sequence>): (r: seq<(seq<Byte>, Sequence)>)
    ensures |r| == |qs| && forall i :: 0 <= i < |qs| ==> r[i] == (SequenceKey(qs[i]), qs[i])
  {
    Map(qs, (q: Sequence) => (SequenceKey(q), q))
  }

  /**
   * `_read_types` after the header h, at start: `fp.read(data_size *
   * data_count)`, and the records cut from that buffer with the declared
   * stride. The result is the records and the position after the read.
   */
  function ReadRecords(data: seq<Byte>, start: nat, h: Section, classSize: nat): (r: Result<(seq<seq<Byte>>, nat)>)
    requires start <= |data|
    ensures r.Ok? ==> start <= r.value.1 <= |data|
    ensures r.Ok? ==> forall i :: 0 <= i < |r.value.0| ==> |r.value.0[i]| == classSize
  {
    match ReadBytes(data, start, h.dataSize * h.dataCount)
    case Err(e) => Err(e)
    case Ok(buffer) =>
      match RecordSlices(buffer, h.dataSize, h.dataCount, classSize, 0)
      case Err(e) => Err(e)
      case Ok(rs) => Ok((rs, start + |buffer|))
  }

  /**
   * `fp.seek(data_size * data_count, 1)` from start: a target before the
   * beginning of the file is an OSError; one past its end is allowed.
   */
  function Skip(st: ReadState, start: nat, n: int): (r: Result<(ReadState, nat)>)
    ensures r.Ok? <==> start + n >= 0
    ensures r.Ok? ==> r.value == (st, start + n)
    ensures r.Err? ==> r.error.OSError?
  {
    if start + n < 0 then Err(OSError("[Errno 22] Invalid argument")) else Ok((st, start + n))
  }

  /**
   * One pass of the loop of `_read` at position pos: the header, then by
   * its name: nothing for ANIMHEAD; the bones appended for BONENAMES; for
   * ANIMINFO the sequences, repaired if need be, filed by name (a later
   * sequence of the same name replaces the earlier); for ANIMKEYS the
   * position after the header is recorded and the payload skipped; any
   * other chunk is skipped.
   */
  function ReadChunk(st: ReadState, data: seq<Byte>, pos: nat): (r: Result<(ReadState, nat)>)
    requires pos < |data|
  {
    match ReadSection(data, pos)
    case Err(e) => Err(e)
    case Ok(h) => ReadBody(st, data, pos + SECTION_SIZE, h)
  }

  /** The rest of a pass once the header h has been read and the reader stands at start. */
  function ReadBody(st: ReadState, data: seq<Byte>, start: nat, h: Section): (r: Result<(ReadState, nat)>)
    requires start <= |data|
  {
    match PsaKindOf(CharArrayValue(h.name))
    case AnimHead => Ok((st, start))
    case BoneNames => ReadBones(st, data, start, h)
    case AnimInfo => ReadSequences(st, data, start, h)
    case AnimKeys => Skip(st.(keysDataOffset := start), start, h.dataSize * h.dataCount)
    case Unrecognized => Skip(st, start, h.dataSize * h.dataCount)
  }

  /** BONENAMES: the bones appended in file order. */
  function ReadBones(st: ReadState, data: seq<Byte>, start: nat, h: Section): (r: Result<(ReadState, nat)>)
    requires start <= |data|
  {
    match ReadRecords(data, start, h, PSX_BONE_SIZE)
    case Err(e) => Err(e)
    case Ok((rs, next)) =>
      var bones := st.psa.bones + DecodeAll(rs, PSX_BONE_SIZE, DecodePsxBone);
      Ok((st.(psa := st.psa.(bones := bones)), next))
  }

  /** ANIMINFO: the sequences, repaired if need be, filed by name in file order. */
  function ReadSequences(st: ReadState, data: seq<Byte>, start: nat, h: Section): (r: Result<(ReadState, nat)>)
    requires start <= |data|
  {
    match ReadRecords(data, start, h, SEQUENCE_SIZE)
    case Err(e) => Err(e)
    case Ok((rs, next)) =>
      var qs := Cue4ParseFixed(DecodeAll(rs, SEQUENCE_SIZE, DecodeSequence));
      var sequences := PutAll(st.psa.sequences, NamedEntries(qs));
      Ok((st.(psa := st.psa.(sequences := sequences)), next))
  }

  /**
   * Where a pass ends, and whether it fails, depends on the file and the
   * position only, not on what was read before.
   */
  lemma ReadChunkPosition(st: ReadState, st': ReadState, data: seq<Byte>, pos: nat)
    requires pos < |data|
    ensures ReadChunk(st, data, pos).Ok? == ReadChunk(st', data, pos).Ok?
    ensures ReadChunk(st, data, pos).Ok? ==> ReadChunk(st, data, pos).value.1 == ReadChunk(st', data, pos).value.1
    ensures ReadChunk(st, data, pos).Err? ==> ReadChunk(st, data, pos).error == ReadChunk(st', data, pos).error
  {
    if ReadSection(data, pos).Ok? {
      ReadBodyPosition(st, st', data, pos + SECTION_SIZE, ReadSection(data, pos).value);
    }
  }

  lemma ReadBodyPosition(st: ReadState, st': ReadState, data: seq<Byte>, start: nat, h: Section)
    requires start <= |data|
    ensures ReadBody(st, data, start, h).Ok? == ReadBody(st', data, start, h).Ok?
    ensures ReadBody(st, data, start, h).Ok? ==> ReadBody(st, data, start, h).value.1 == ReadBody(st', data, start, h).value.1
    ensures ReadBody(st, data, start, h).Err? ==> ReadBody(st, data, start, h).error == ReadBody(st', data, start, h).error
  {
  }

  /** How the loop of `_read` ends: it returns or raises, or it never ends. */
  datatype Outcome<T> = Returns(result: Result<T>) | Hangs

  /** The positions below the end of the data that the loop has not stood at yet. */
  function Unvisited(data: seq<Byte>, seen: set<nat>): set<nat>
  {
    set p: nat | p < |data| && p !in seen
  }

  /**
   * The loop `while fp.read(1)` from position pos, having already stood at
   * the positions in seen. A negative data_size * data_count moves the
   * reader back; since where a pass ends depends on the position alone
   * (ReadChunkPosition), coming back to a position means the loop goes
   * round forever.
   */
  function ReadFrom(st: ReadState, data: seq<Byte>, pos: nat, seen: set<nat>): Outcome<ReadState>
    decreases Unvisited(data, seen)
  {
    if pos >= |data| then Returns(Ok(st))
    else if pos in seen then Hangs
    else
      assert pos in Unvisited(data, seen) - Unvisited(data, seen + {pos});
      match ReadChunk(st, data, pos)
      case Err(e) => Returns(Err(e))
      case Ok((st', pos')) => ReadFrom(st', data, pos', seen + {pos})
  }

  /** `PsaReader(path)` on a file holding data: `_read` with the offset starting at 0. */
  function ReadPsa(data: seq<Byte>): Outcome<ReadState>
  {
    ReadFrom(ReadState(EmptyPsa(), 0), data, 0, {})
  }

  /** A chunk that skips back onto its own start: the loop never ends. */
  lemma ReadFromRevisit(st: ReadState, data: seq<Byte>, pos: nat, seen: set<nat>)
    requires pos < |data| && pos !in seen && ReadChunk(st, data, pos) == Ok((st, pos))
    ensures ReadFrom(st, data, pos, seen) == Hangs
  {
    assert ReadFrom(st, data, pos, seen) == ReadFrom(st, data, pos, seen + {pos});
  }

  /**
   * For instance a file starting with an unrecognised chunk whose data_size
   * * data_count is -32: the skip lands on the same header again.
   */
  lemma ReadPsaHangs(data: seq<Byte>)
    requires SECTION_SIZE <= |data|
    requires var h := DecodeSection(data[0..SECTION_SIZE]);
      PsaKindOf(CharArrayValue(h.name)).Unrecognized? && h.dataSize * h.dataCount == -(SECTION_SIZE as int)
    ensures ReadPsa(data) == Hangs
  {
    var st := ReadState(EmptyPsa(), 0);
    var h := DecodeSection(data[0..SECTION_SIZE]);
    assert ReadSection(data, 0) == Ok(h);
    assert ReadBody(st, data, SECTION_SIZE, h) == Ok((st, 0));
    ReadFromRevisit(st, data, 0, {});
  }

  /** One pass that ends elsewhere: the loop goes on from there. */
  lemma ReadFromStep(st: ReadState, data: seq<Byte>, pos: nat, seen: set<nat>, st': ReadState, pos': nat)
    requires pos < |data| && pos !in seen && ReadChunk(st, data, pos) == Ok((st', pos'))
    ensures ReadFrom(st, data, pos, seen) == ReadFrom(st', data, pos', seen + {pos})
  {
  }

  /** An empty file loads as an empty Psa; one that ends inside a header is a ValueError. */
  lemma ReadPsaShort(data: seq<Byte>)
    requires |data| < SECTION_SIZE
    ensures data == [] ==> ReadPsa(data) == Returns(Ok(ReadState(EmptyPsa(), 0)))
    ensures data != [] ==>
      ReadPsa(data).Returns? && ReadPsa(data).result.Err? && ReadPsa(data).result.error.ValueError?
  {
  }

  /* --------------------------------------------------------- The reader */

  /** A `PsaReader`: the open file, the offset of the keys and the Psa read on opening. */
  class PsaReader {
    const data: seq<Byte>
    var keysDataOffset: int
    var psa: Psa

    /** The reader once `__init__` has run `_read` and stored what it returned. */
    constructor (data: seq<Byte>, keysDataOffset: int, psa: Psa)
      ensures this.data == data && this.keysDataOffset == keysDataOffset && this.psa == psa
    {
      this.data := data;
      this.keysDataOffset := keysDataOffset;
      this.psa := psa;
    }

    /**
     * `read_sequence_keys(name)`: seek to the sequence's first key and cut
     * frame_count * bone_count keys from one read.
     */
    method ReadSequenceKeys(name: seq<Byte>) returns (r: Result<seq<Key>>)
      ensures r == SequenceKeys(data, keysDataOffset, psa.Contents(), name)
    {
      var sequence := psa.sequences.Get(name);
      if sequence.Err? {
        return Err(sequence.error);
      }
      var q := sequence.value;
      var boneCount := |psa.bones|;
      var bufferLength := KEY_SIZE * boneCount * q.frameCount;
      var sequenceKeysOffset := keysDataOffset + q.frameStartIndex * boneCount * KEY_SIZE;
      if sequenceKeysOffset < 0 {
        return Err(OSError("[Errno 22] Invalid argument"));
      }
      var read := ReadBytes(data, if sequenceKeysOffset < |data| then sequenceKeysOffset else |data|, bufferLength);
      if read.Err? {
        return Err(read.error);
      }
      var records := ReadTypes(read.value, KEY_SIZE, q.frameCount * boneCount, KEY_SIZE);
      if records.Err? {
        return Err(records.error);
      }
      return Ok(DecodeAll(records.value, KEY_SIZE, DecodeKey));
    }

    /**
     * `read_sequence_data_matrix(name)`: the keys of the sequence laid out
     * frame by frame and bone by bone, each as the seven values of
     * `Key.data`, in a zero-filled frame_count x bone_count x 7 array.
     */
    method ReadSequenceDataMatrix(name: seq<Byte>) returns (r: Result<array3<F32>>)
      ensures r.Ok? ==> fresh(r.value)
      ensures r.Ok? <==>
        (SequenceKeys(data, keysDataOffset, psa.Contents(), name).Ok? && psa.sequences.Get(name).value.frameCount >= 0)
      ensures r.Err? && SequenceKeys(data, keysDataOffset, psa.Contents(), name).Err? ==>
        r.error == SequenceKeys(data, keysDataOffset, psa.Contents(), name).error
      ensures r.Err? && SequenceKeys(data, keysDataOffset, psa.Contents(), name).Ok? ==>
        r.error == ValueError("negative dimensions are not allowed")
      ensures r.Ok? ==>
        var keys := SequenceKeys(data, keysDataOffset, psa.Contents(), name).value;
        var frameCount, boneCount := psa.sequences.Get(name).value.frameCount, |psa.bones|;
        r.value.Length0 == frameCount && r.value.Length1 == boneCount && r.value.Length2 == 7
        && |keys| == frameCount * boneCount
        && forall f, b, k :: 0 <= f < frameCount && 0 <= b < boneCount && 0 <= k < 7 ==>
          r.value[f, b, k] == MatrixEntry(keys, frameCount, boneCount, f, b, k)
    {
      var sequence := psa.sequences.Get(name);
      var keys := ReadSequenceKeys(name);
      if keys.Err? {
        return Err(keys.error);
      }
      var frameCount := sequence.value.frameCount;
      var boneCount := |psa.bones|;
      if frameCount < 0 {
        return Err(ValueError("negative dimensions are not allowed"));
      }
      var matrix := new F32[frameCount, boneCount, 7]((_, _, _) => FLOAT_ZERO);
      var ks := keys.value;
      for frameIndex := 0 to frameCount
        invariant forall f, b, k :: 0 <= f < frameIndex && 0 <= b < boneCount && 0 <= k < 7 ==>
          matrix[f, b, k] == MatrixEntry(ks, frameCount, boneCount, f, b, k)
      {
        FillFrame(matrix, ks, frameIndex);
      }
      return Ok(matrix);
    }
  }

  /** The inner loop over the bones of frame f: each bone's `Key.data` stored along the last axis. */
  method FillFrame(matrix: array3<F32>, keys: seq<Key>, f: nat)
    requires f < matrix.Length0 && matrix.Length2 == 7 && |keys| == matrix.Length0 * matrix.Length1
    modifies matrix
    ensures forall i, b, k :: 0 <= i < matrix.Length0 && 0 <= b < matrix.Length1 && 0 <= k < 7 ==>
      matrix[i, b, k] == if i == f then MatrixEntry(keys, matrix.Length0, matrix.Length1, f, b, k) else old(matrix[i, b, k])
  {
    for boneIndex := 0 to matrix.Length1
      invariant forall i, b, k :: 0 <= i < matrix.Length0 && 0 <= b < matrix.Length1 && 0 <= k < 7 ==>
        matrix[i, b, k] == if i == f && b < boneIndex then MatrixEntry(keys, matrix.Length0, matrix.Length1, f, b, k)
          else old(matrix[i, b, k])
    {
      KeyIndexInRange(f, boneIndex, matrix.Length0, matrix.Length1);
      FillCell(matrix, f, boneIndex, KeyData(keys[f * matrix.Length1 + boneIndex]));
    }
  }

  /** `matrix[f, b, :] = list(data)`. */
  method FillCell(matrix: array3<F32>, f: nat, b: nat, data: seq<F32>)
    requires f < matrix.Length0 && b < matrix.Length1 && matrix.Length2 == |data| == 7
    modifies matrix
    ensures forall i, j, k :: 0 <= i < matrix.Length0 && 0 <= j < matrix.Length1 && 0 <= k < 7 ==>
      matrix[i, j, k] == if i == f && j == b then data[k] else old(matrix[i, j, k])
  {
    for k := 0 to 7
      invariant forall i, j, k' :: 0 <= i < matrix.Length0 && 0 <= j < matrix.Length1 && 0 <= k' < 7 ==>
        matrix[i, j, k'] == if i == f && j == b && k' < k then data[k'] else old(matrix[i, j, k'])
    {
      matrix[f, b, k] := data[k];
    }
  }

  /** Entry [f, b, k] of the data matrix: value k of `Key.data` of the key of bone b in frame f. */
  function MatrixEntry(keys: seq<Key>, frameCount: nat, boneCount: nat, f: nat, b: nat, k: nat): F32
    requires |keys| == frameCount * boneCount && f < frameCount && b < boneCount && k < 7
  {
    KeyIndexInRange(f, b, frameCount, boneCount);
    KeyData(keys[f * boneCount + b])[k]
  }

  /** Key f * b_count + b exists when f and b are within the frame and bone counts. */
  lemma KeyIndexInRange(f: nat, b: nat, frameCount: nat, boneCount: nat)
    requires f < frameCount && b < boneCount
    ensures f * boneCount + b < frameCount * boneCount
  {
    MulSucc(f, boneCount);
  }

  /**
   * What `read_sequence_keys` returns for the sequence filed under name,
   * on a file holding data whose keys start at keysDataOffset: a missing
   * name is a KeyError; a seek before the start of the file an OSError;
   * a negative length, or a read too short for the keys, a ValueError.
   * A seek past the end reads nothing.
   */
  function SequenceKeys(data: seq<Byte>, keysDataOffset: int, p: PsaLists, name: seq<Byte>): (r: Result<seq<Key>>)
    ensures p.sequences.Get(name).Err? ==> r == Err(KeyError)
    ensures r.Ok? ==> p.sequences.Get(name).Ok?
    ensures r.Ok? ==> var n := p.sequences.Get(name).value.frameCount * |p.bones|;
      |r.value| == if n < 0 then 0 else n
  {
    match p.sequences.Get(name)
    case Err(e) => Err(e)
    case Ok(q) =>
      var boneCount := |p.bones|;
      var at := keysDataOffset + q.frameStartIndex * boneCount * KEY_SIZE;
      if at < 0 then Err(OSError("[Errno 22] Invalid argument"))
      else
        match ReadBytes(data, if at < |data| then at else |data|, KEY_SIZE * boneCount * q.frameCount)
        case Err(e) => Err(e)
        case Ok(buffer) =>
          match RecordSlices(buffer, KEY_SIZE, q.frameCount * boneCount, KEY_SIZE, 0)
          case Err(e) => Err(e)
          case Ok(rs) => Ok(DecodeAll(rs, KEY_SIZE, DecodeKey))
  }

  /**
   * `PsaReader(path)`: opening reads every chunk. Where the Python loop
   * would never end, the model stops at the first position the loop
   * comes back to and reports it.
   */
  method Open(data: seq<Byte>) returns (r: Outcome<PsaReader>)
    ensures r.Hangs? <==> ReadPsa(data).Hangs?
    ensures r.Returns? && r.result.Err? ==> ReadPsa(data) == Returns(Err(r.result.error))
    ensures r.Returns? && r.result.Ok? ==>
      ReadPsa(data) == Returns(Ok(ReadState(r.result.value.psa.Contents(), r.result.value.keysDataOffset)))
      && r.result.value.data == data
  {
    var psa := new Psa();
    var keysDataOffset := 0;
    var pos: nat := 0;
    var seen: set<nat> := {};
    while pos < |data|
      invariant ReadPsa(data) == ReadFrom(ReadState(psa.Contents(), keysDataOffset), data, pos, seen)
      decreases Unvisited(data, seen)
    {
      if pos in seen {
        return Hangs;
      }
      assert pos in Unvisited(data, seen) - Unvisited(data, seen + {pos});
      var next := ReadChunkInto(psa, keysDataOffset, data, pos);
      if next.Err? {
        return Returns(Err(next.error));
      }
      seen := seen + {pos};
      keysDataOffset, pos := next.value.0, next.value.1;
    }
    var reader := new PsaReader(data, keysDataOffset, psa);
    return Returns(Ok(reader));
  }

  /** One pass of the loop of `_read`, filling psa; returns the offset of the keys and the new position. */
  method ReadChunkInto(psa: Psa, keysDataOffset: int, data: seq<Byte>, pos: nat) returns (r: Result<(int, nat)>)
    requires pos < |data|
    modifies psa
    ensures r.Ok? ==>
      ReadChunk(ReadState(old(psa.Contents()), keysDataOffset), data, pos) == Ok((ReadState(psa.Contents(), r.value.0), r.value.1))
    ensures r.Err? ==> ReadChunk(ReadState(old(psa.Contents()), keysDataOffset), data, pos) == Err(r.error)
  {
    if |data| - pos < SECTION_SIZE {
      return Err(ValueError("Buffer size too small"));
    }
    var h := DecodeSection(data[pos..pos + SECTION_SIZE]);
    r := ReadBodyInto(psa, keysDataOffset, data, pos + SECTION_SIZE, h);
  }

  /** The dispatch on the chunk name. */
  method ReadBodyInto(psa: Psa, keysDataOffset: int, data: seq<Byte>, start: nat, h: Section) returns (r: Result<(int, nat)>)
    requires start <= |data|
    modifies psa
    ensures r.Ok? ==>
      ReadBody(ReadState(old(psa.Contents()), keysDataOffset), data, start, h) == Ok((ReadState(psa.Contents(), r.value.0), r.value.1))
    ensures r.Err? ==> ReadBody(ReadState(old(psa.Contents()), keysDataOffset), data, start, h) == Err(r.error)
  {
    var n := h.dataSize * h.dataCount;
    var kind := PsaKindOf(CharArrayValue(h.name));
    if kind == AnimHead {
      return Ok((keysDataOffset, start));
    } else if kind == BoneNames {
      r := ReadBonesInto(psa, keysDataOffset, data, start, h);
    } else if kind == AnimInfo {
      r := ReadSequencesInto(psa, keysDataOffset, data, start, h);
    } else if kind == AnimKeys {
      if start + n < 0 {
        return Err(OSError("[Errno 22] Invalid argument"));
      }
      return Ok((start, start + n));
    } else {
      if start + n < 0 {
        return Err(OSError("[Errno 22] Invalid argument"));
      }
      return Ok((keysDataOffset, start + n));
    }
  }

  /** BONENAMES: `_read_types(fp, PsxBone, section, psa.bones)`. */
  method ReadBonesInto(psa: Psa, keysDataOffset: int, data: seq<Byte>, start: nat, h: Section) returns (r: Result<(int, nat)>)
    requires start <= |data|
    modifies psa
    ensures r.Ok? ==>
      ReadBones(ReadState(old(psa.Contents()), keysDataOffset), data, start, h) == Ok((ReadState(psa.Contents(), r.value.0), r.value.1))
    ensures r.Err? ==> ReadBones(ReadState(old(psa.Contents()), keysDataOffset), data, start, h) == Err(r.error)
  {
    var records := ReadRecordsAt(data, start, h, PSX_BONE_SIZE);
    if records.Err? {
      return Err(records.error);
    }
    psa.bones := psa.bones + DecodeAll(records.value.0, PSX_BONE_SIZE, DecodePsxBone);
    return Ok((keysDataOffset, records.value.1));
  }

  /**
   * ANIMINFO: the sequences read into a new list, repaired in place if
   * need be, then filed by name.
   */
  method ReadSequencesInto(psa: Psa, keysDataOffset: int, data: seq<Byte>, start: nat, h: Section) returns (r: Result<(int, nat)>)
    requires start <= |data|
    modifies psa
    ensures r.Ok? ==>
      ReadSequences(ReadState(old(psa.Contents()), keysDataOffset), data, start, h) == Ok((ReadState(psa.Contents(), r.value.0), r.value.1))
    ensures r.Err? ==> ReadSequences(ReadState(old(psa.Contents()), keysDataOffset), data, start, h) == Err(r.error)
  {
    var records := ReadRecordsAt(data, start, h, SEQUENCE_SIZE);
    if records.Err? {
      return Err(records.error);
    }
    var decoded := DecodeAll(records.value.0, SEQUENCE_SIZE, DecodeSequence);
    var sequences := new Sequence[|decoded|](i requires 0 <= i < |decoded| => decoded[i]);
    assert sequences[..] == decoded;
    var _ := TryFixCue4ParseIssue103(sequences);
    AddSequences(psa, sequences[..]);
    return Ok((keysDataOffset, records.value.1));
  }

  /** `_read_types` into a list: `fp.read` of the payload, then the records cut out one by one. */
  method ReadRecordsAt(data: seq<Byte>, start: nat, h: Section, classSize: nat) returns (r: Result<(seq<seq<Byte>>, nat)>)
    requires start <= |data|
    ensures r == ReadRecords(data, start, h, classSize)
  {
    var read := ReadBytes(data, start, h.dataSize * h.dataCount);
    if read.Err? {
      return Err(read.error);
    }
    var buffer := read.value;
    var records := ReadTypes(buffer, h.dataSize, h.dataCount, classSize);
    if records.Err? {
      return Err(records.error);
    }
    return Ok((records.value, start + |buffer|));
  }

  /** The loop `for sequence in sequences: psa.sequences[sequence.name.decode()] = sequence`. */
  method AddSequences(psa: Psa, qs: seq<Sequence>)
    modifies psa
    ensures psa.Contents() == old(psa.Contents()).(sequences := PutAll(old(psa.sequences), NamedEntries(qs)))
  {
    ghost var entries := NamedEntries(qs);
    for i := 0 to |qs|
      invariant psa.bones == old(psa.bones) && psa.keys == old(psa.keys)
      invariant PutAll(old(psa.sequences), entries) == PutAll(psa.sequences, entries[i..])
    {
      assert entries[i..][0] == (SequenceKey(qs[i]), qs[i]);
      assert entries[i..][1..] == entries[i + 1..];
      psa.sequences := psa.sequences.Put(SequenceKey(qs[i]), qs[i]);
    }
  }
}

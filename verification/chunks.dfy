// The chunk container shared by PSK and PSA files: every chunk is a 32-byte
// `Section` header followed by data_size * data_count bytes of records.
// Writing appends to an output stream; reading walks a byte string with a
// position, as `fp.read` and `fp.seek` do.
module Chunks {
  import opened Bytes
  import opened Wrappers
  import opened SharedData
  import opened Seqs

  /* ------------------------------------------------------------- Writing */

  /** A file opened for writing: each `fp.write` appends its bytes. */
  class Stream {
    var bytes: seq<Byte>

    constructor ()
      ensures bytes == []
    {
      bytes := [];
    }

    method Write(b: seq<Byte>)
      modifies this
      ensures bytes == old(bytes) + b
    {
      bytes := bytes + b;
    }
  }

  /** A chunk name: the bytes assigned to the 20-byte name field. */
  type SectionName = s: seq<Byte> | |s| <= 20

  /** The arguments of one `_write_section` call: name, record size (for the type) and records. */
  datatype ChunkOut = ChunkOut(name: SectionName, recordSize: Option<nat>, records: Option<seq<seq<Byte>>>)

  function ChunkBytes(ch: ChunkOut): seq<Byte>
  {
    SectionBytes(ch.name, ch.recordSize, ch.records)
  }

  /** The header written for a chunk. */
  function ChunkHeader(ch: ChunkOut): Section
  {
    SectionHeader(ch.name, ch.recordSize, ch.records)
  }

  /**
   * The header that `_write_section` and `write_section` write: a new
   * header with the name, whose data_size and data_count are set (as 32-bit
   * fields) only when both a record type, given by its size, and a list of
   * records are passed.
   */
  function SectionHeader(name: SectionName, recordSize: Option<nat>, records: Option<seq<seq<Byte>>>): (h: Section)
  {
    if recordSize.Some? && records.Some? then
      NewSection(name).(dataSize := I32.Wrap(recordSize.value), dataCount := I32.Wrap(|records.value|))
    else
      NewSection(name)
  }

  /** The bytes of one written chunk: its header, then its records in list order. */
  function SectionBytes(name: SectionName, recordSize: Option<nat>, records: Option<seq<seq<Byte>>>): seq<Byte>
  {
    EncodeSection(SectionHeader(name, recordSize, records))
    + (if records.Some? then Concat(records.value) else [])
  }

  /** `_write_section(fp, name, data_type, data)`. */
  method WriteSection(fp: Stream, name: SectionName, recordSize: Option<nat>, records: Option<seq<seq<Byte>>>)
    modifies fp
    ensures fp.bytes == old(fp.bytes) + SectionBytes(name, recordSize, records)
  {
    var header := EncodeSection(SectionHeader(name, recordSize, records));
    fp.Write(header);
    if records.Some? {
      var data := records.value;
      for i := 0 to |data|
        invariant fp.bytes == old(fp.bytes) + header + Concat(data[..i])
      {
        ConcatSnoc(data, i);
        fp.Write(data[i]);
      }
      assert data[..|data|] == data;
    }
  }

  /**
   * A chunk without records is its header alone: the name padded with
   * NULs, type_flags 1999801 and data_size = data_count = 0.
   */
  lemma SectionWithoutRecords(name: SectionName, recordSize: Option<nat>)
    requires 0 !in name
    ensures var h := SectionHeader(name, recordSize, None);
      CharArrayValue(h.name) == name && h.typeFlags == SECTION_TYPE_FLAGS
      && h.dataSize == 0 && h.dataCount == 0
    ensures SectionBytes(name, recordSize, None) == EncodeSection(SectionHeader(name, recordSize, None))
  {
    NewSectionLayout(name);
  }

  /**
   * A chunk with records declares their size and their number, and its
   * payload is data_size * data_count bytes long, when both fit in 32 bits.
   */
  lemma SectionWithRecords(name: SectionName, n: nat, records: seq<seq<Byte>>)
    requires 0 !in name
    requires n < 0x8000_0000 && |records| < 0x8000_0000
    requires forall i :: 0 <= i < |records| ==> |records[i]| == n
    ensures var h := SectionHeader(name, Some(n), Some(records));
      CharArrayValue(h.name) == name && h.typeFlags == SECTION_TYPE_FLAGS
      && h.dataSize == n && h.dataCount == |records|
    ensures SectionBytes(name, Some(n), Some(records))
      == EncodeSection(SectionHeader(name, Some(n), Some(records))) + Concat(records)
    ensures |Concat(records)| == n * |records|
  {
    NewSectionLayout(name);
    WrapI32Small(n);
    WrapI32Small(|records|);
    ConcatLength(records, n);
  }

  /* ------------------------------------------------------------- Reading */

  /**
   * `Section.from_buffer_copy(fp.read(32))` at position pos: a header with
   * fewer than 32 bytes left is a ValueError.
   */
  function ReadSection(data: seq<Byte>, pos: nat): (r: Result<Section>)
    requires pos <= |data|
    ensures r.Ok? <==> pos + SECTION_SIZE <= |data|
    ensures r.Ok? ==> EncodeSection(r.value) == data[pos..pos + SECTION_SIZE]
  {
    if |data| - pos < SECTION_SIZE then Err(ValueError("Buffer size too small"))
    else Ok(DecodeSection(data[pos..pos + SECTION_SIZE]))
  }

  /**
   * `fp.read(n)` at position pos of a binary file: n bytes, or fewer at
   * the end; -1 reads the rest, and a length below -1 is a ValueError.
   */
  function ReadBytes(data: seq<Byte>, pos: nat, n: int): (r: Result<seq<Byte>>)
    requires pos <= |data|
    ensures r.Ok? <==> n >= -1
    ensures r.Err? ==> r.error.ValueError?
    ensures r.Ok? ==> pos + |r.value| <= |data| && r.value == data[pos..pos + |r.value|]
    ensures r.Ok? && 0 <= n <= |data| - pos ==> |r.value| == n
    ensures r.Ok? && (n == -1 || n > |data| - pos) ==> |r.value| == |data| - pos
  {
    if n < -1 then Err(ValueError("read length must be non-negative or -1"))
    else if n == -1 || |data| - pos < n then Ok(data[pos..])
    else Ok(data[pos..pos + n])
  }

  /**
   * The records that `read_types` copies out of buffer with
   * `from_buffer_copy(buffer, offset)`: count records of classSize bytes,
   * the first at offset and each next one data_size bytes further. A
   * negative offset or a record that runs past the buffer is a ValueError.
   */
  function RecordSlices(buffer: seq<Byte>, size: int, count: int, classSize: nat, offset: int): (r: Result<seq<seq<Byte>>>)
    ensures r.Ok? ==> |r.value| == (if count < 0 then 0 else count)
    ensures r.Ok? ==> forall i :: 0 <= i < |r.value| ==> |r.value[i]| == classSize
    ensures r.Err? ==> r.error.ValueError?
    decreases count
  {
    if count <= 0 then Ok([])
    else if offset < 0 then Err(ValueError("offset cannot be negative"))
    else if |buffer| - offset < classSize then Err(ValueError("Buffer size too small"))
    else Prepend([buffer[offset..offset + classSize]], RecordSlices(buffer, size, count - 1, classSize, offset + size))
  }

  /** `read_types`: the loop over range(data_count) that advances the offset by data_size. */
  method ReadTypes(buffer: seq<Byte>, size: int, count: int, classSize: nat) returns (r: Result<seq<seq<Byte>>>)
    ensures r == RecordSlices(buffer, size, count, classSize, 0)
  {
    var records: seq<seq<Byte>> := [];
    var offset := 0;
    var i := 0;
    PrependEmpty(RecordSlices(buffer, size, count, classSize, 0));
    while i < count
      invariant 0 <= i && (count >= 0 ==> i <= count)
      invariant RecordSlices(buffer, size, count, classSize, 0)
        == Prepend(records, RecordSlices(buffer, size, count - i, classSize, offset))
      decreases count - i
    {
      if offset < 0 {
        return Err(ValueError("offset cannot be negative"));
      }
      if |buffer| - offset < classSize {
        return Err(ValueError("Buffer size too small"));
      }
      var record := buffer[offset..offset + classSize];
      PrependAssoc(records, [record], RecordSlices(buffer, size, count - i - 1, classSize, offset + size));
      records := records + [record];
      offset := offset + size;
      i := i + 1;
    }
    r := Ok(records);
    assert records + [] == records;
  }

  lemma PrependEmpty<T>(r: Result<seq<T>>)
    ensures Prepend([], r) == r
  {
    if r.Ok? {
      assert [] + r.value == r.value;
    }
  }

  lemma PrependAssoc<T>(a: seq<T>, b: seq<T>, r: Result<seq<T>>)
    ensures Prepend(a, Prepend(b, r)) == Prepend(a + b, r)
  {
    if r.Ok? {
      assert a + (b + r.value) == (a + b) + r.value;
    }
  }

  /**
   * Record i of a successful read sits at offset + i * data_size: the
   * declared stride, which need not be the record's own size.
   */
  lemma {:induction false} RecordSlicesStride(buffer: seq<Byte>, size: int, count: int, classSize: nat, offset: int, i: nat)
    requires RecordSlices(buffer, size, count, classSize, offset).Ok?
    requires i < count
    ensures 0 <= offset + i * size && offset + i * size + classSize <= |buffer|
    ensures RecordSlices(buffer, size, count, classSize, offset).value[i]
      == buffer[offset + i * size..offset + i * size + classSize]
    decreases count
  {
    if i > 0 {
      RecordSlicesStride(buffer, size, count - 1, classSize, offset + size, i - 1);
      MulSuccInt(i - 1, size);
    }
  }

  lemma MulSuccInt(m: nat, n: int)
    ensures (m + 1) * n == m * n + n
  {
  }

  /** Reading back records that were written one after another at offset gives them back. */
  lemma {:induction false} RecordSlicesOfConcat(buffer: seq<Byte>, rs: seq<seq<Byte>>, n: nat, offset: nat)
    requires forall i :: 0 <= i < |rs| ==> |rs[i]| == n
    requires offset + |Concat(rs)| <= |buffer| && buffer[offset..offset + |Concat(rs)|] == Concat(rs)
    ensures RecordSlices(buffer, n, |rs|, n, offset) == Ok(rs)
    decreases |rs|
  {
    if rs != [] {
      var rest := Concat(rs[1..]);
      assert Concat(rs) == rs[0] + rest;
      var whole := buffer[offset..offset + |Concat(rs)|];
      assert buffer[offset..offset + n] == whole[..n] == rs[0];
      assert buffer[offset + n..offset + n + |rest|] == whole[n..] == rest;
      RecordSlicesOfConcat(buffer, rs[1..], n, offset + n);
      assert [rs[0]] + rs[1..] == rs;
    }
  }

  /** A header followed by a payload at pos reads back as that header, with the payload after it. */
  lemma ReadSectionOfBytes(data: seq<Byte>, pos: nat, h: Section, payload: seq<Byte>)
    requires pos + SECTION_SIZE + |payload| <= |data|
    requires data[pos..pos + SECTION_SIZE + |payload|] == EncodeSection(h) + payload
    ensures ReadSection(data, pos) == Ok(h)
    ensures data[pos + SECTION_SIZE..pos + SECTION_SIZE + |payload|] == payload
  {
    var whole := data[pos..pos + SECTION_SIZE + |payload|];
    assert data[pos..pos + SECTION_SIZE] == whole[..SECTION_SIZE] == EncodeSection(h);
    assert data[pos + SECTION_SIZE..pos + SECTION_SIZE + |payload|] == whole[SECTION_SIZE..];
    SectionRoundTrip(h);
  }

  /**
   * A header h followed by the records of n bytes it declares, found at
   * pos: the header reads back, then data_size * data_count bytes that
   * the records are cut from again.
   */
  lemma ReadHeaderAndRecords(data: seq<Byte>, pos: nat, h: Section, n: nat, records: seq<seq<Byte>>)
    requires forall i :: 0 <= i < |records| ==> |records[i]| == n
    requires h.dataSize == n && h.dataCount == |records|
    requires pos + SECTION_SIZE + |Concat(records)| <= |data|
    requires data[pos..pos + SECTION_SIZE + |Concat(records)|] == EncodeSection(h) + Concat(records)
    ensures ReadSection(data, pos) == Ok(h)
    ensures ReadBytes(data, pos + SECTION_SIZE, h.dataSize * h.dataCount) == Ok(Concat(records))
    ensures RecordSlices(Concat(records), h.dataSize, h.dataCount, n, 0) == Ok(records)
  {
    var payload := Concat(records);
    ConcatLength(records, n);
    ReadSectionOfBytes(data, pos, h, payload);
    RecordSlicesOfConcat(payload, records, n, 0);
  }

  /** A section written without records, found at pos, reads back as its header alone. */
  lemma ReadWrittenHeader(data: seq<Byte>, pos: nat, name: SectionName)
    requires 0 !in name
    requires pos + SECTION_SIZE <= |data| && data[pos..pos + SECTION_SIZE] == SectionBytes(name, None, None)
    ensures |SectionBytes(name, None, None)| == SECTION_SIZE
    ensures ReadSection(data, pos) == Ok(SectionHeader(name, None, None))
    ensures var h := SectionHeader(name, None, None);
      CharArrayValue(h.name) == name && h.dataSize == 0 && h.dataCount == 0
  {
    SectionWithoutRecords(name, None);
    ReadSectionOfBytes(data, pos, SectionHeader(name, None, None), []);
  }

  /** Reading |b| bytes where b is stored gives b. */
  lemma ReadBytesOfStored(data: seq<Byte>, at: nat, b: seq<Byte>)
    requires at + |b| <= |data| && data[at..at + |b|] == b
    ensures ReadBytes(data, at, |b|) == Ok(b)
  {
  }

  /** Cutting a join of n-byte records into n-byte records gives them back. */
  lemma RecordSlicesOfJoin(rs: seq<seq<Byte>>, n: nat)
    requires forall i :: 0 <= i < |rs| ==> |rs[i]| == n
    ensures RecordSlices(Concat(rs), n, |rs|, n, 0) == Ok(rs)
  {
    var whole := Concat(rs);
    assert whole[0..|whole|] == whole;
    RecordSlicesOfConcat(whole, rs, n, 0);
  }

  /** The records of a list, decoded one by one. */
  function DecodeAll<T>(rs: seq<seq<Byte>>, n: nat, decode: seq<Byte> --> T): (r: seq<T>)
    requires forall i :: 0 <= i < |rs| ==> |rs[i]| == n && decode.requires(rs[i])
    ensures |r| == |rs|
  {
    seq(|rs|, i requires 0 <= i < |rs| => decode(rs[i]))
  }

  /** Decoding the encoded records of a list gives the list, when decoding undoes encoding on it. */
  lemma DecodeAllOfEncoded<T>(xs: seq<T>, n: nat, encode: T -> seq<Byte>, decode: seq<Byte> --> T)
    requires forall i :: 0 <= i < |xs| ==>
      |encode(xs[i])| == n && decode.requires(encode(xs[i])) && decode(encode(xs[i])) == xs[i]
    ensures forall i :: 0 <= i < |xs| ==>
      |Map(xs, encode)[i]| == n && decode.requires(Map(xs, encode)[i])
    ensures DecodeAll(Map(xs, encode), n, decode) == xs
  {
  }

  /** The same when decoding gives back g of each record instead. */
  lemma DecodeAllOfEncodedAs<T, U>(xs: seq<T>, n: nat, encode: T -> seq<Byte>, decode: seq<Byte> --> U, g: T -> U)
    requires forall i :: 0 <= i < |xs| ==>
      |encode(xs[i])| == n && decode.requires(encode(xs[i])) && decode(encode(xs[i])) == g(xs[i])
    ensures forall i :: 0 <= i < |xs| ==>
      |Map(xs, encode)[i]| == n && decode.requires(Map(xs, encode)[i])
    ensures DecodeAll(Map(xs, encode), n, decode) == Map(xs, g)
  {
  }
}

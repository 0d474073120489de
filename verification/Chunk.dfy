// The on-disk chunk: a 16-byte header, a block table, the payload, and padding to the
// archive's alignment (crates/tpx-core/src/chunk.rs).

module ChunkFormat {
  import opened Wrappers
  import opened Types
  import opened Arithmetic
  import opened LittleEndian

  datatype ChunkHeader = ChunkHeader(
    codec: CodecId, filter: FilterId, blockCount: u16,
    blockSize: u32, uncompressedLen: u32, payloadCrc: u32)

  function FixedFields(h: ChunkHeader): (bs: Bytes)
    ensures |bs| == CHUNK_HEADER_SIZE
  {
    Encode(CodecCode(h.codec) as nat, 1) + (Encode(FilterCode(h.filter) as nat, 1) + (Encode(h.blockCount, 2)
      + (Encode(h.blockSize, 4) + (Encode(h.uncompressedLen, 4) + Encode(h.payloadCrc, 4)))))
  }

  function ParseFixed(buf: Bytes): Result<ChunkHeader, TpxError> {
    var c :- ReadU8(buf, 0);
    var codec :- CodecFromU8(c);
    var f :- ReadU8(buf, 1);
    var filter :- FilterFromU8(f);
    var blockCount :- ReadU16(buf, 2);
    var blockSize :- ReadU32(buf, 4);
    var uncompressedLen :- ReadU32(buf, 8);
    var payloadCrc :- ReadU32(buf, 12);
    Success(ChunkHeader(codec, filter, blockCount, blockSize, uncompressedLen, payloadCrc))
  }

  /** The parsed header with its block table; the table must fit in the buffer. */
  function Parse(buf: Bytes): Result<(ChunkHeader, seq<u32>), TpxError> {
    if |buf| < CHUNK_HEADER_SIZE then
      Failure(BufferTooSmall(CHUNK_HEADER_SIZE, |buf|))
    else
      var h :- ParseFixed(buf);
      var required := CHUNK_HEADER_SIZE + 4 * h.blockCount;
      if |buf| < required then
        Failure(BufferTooSmall(required, |buf|))
      else
        var table :- ReadU32s(buf, CHUNK_HEADER_SIZE, h.blockCount);
        Success((h, table))
  }

  method Serialize(h: ChunkHeader, table: seq<u32>) returns (buf: Bytes)
    ensures buf == FixedFields(h) + EncodeU32s(table)
  {
    buf := Encode(CodecCode(h.codec) as nat, 1);
    buf := buf + Encode(FilterCode(h.filter) as nat, 1);
    buf := buf + Encode(h.blockCount, 2);
    buf := buf + Encode(h.blockSize, 4);
    buf := buf + Encode(h.uncompressedLen, 4);
    buf := buf + Encode(h.payloadCrc, 4);
    assert buf == FixedFields(h) + EncodeU32s(table[..0]);
    for i := 0 to |table|
      invariant buf == FixedFields(h) + EncodeU32s(table[..i])
    {
      assert table[..i + 1][..i] == table[..i];
      buf := buf + Encode(table[i], 4);
    }
    assert table[..|table|] == table;
  }

  method Deserialize(buf: Bytes) returns (r: Result<(ChunkHeader, seq<u32>), TpxError>)
    ensures r == Parse(buf)
  {
    if |buf| < CHUNK_HEADER_SIZE {
      return Failure(BufferTooSmall(CHUNK_HEADER_SIZE, |buf|));
    }
    var h :- ParseFixed(buf);
    var required := CHUNK_HEADER_SIZE + 4 * h.blockCount;
    if |buf| < required {
      return Failure(BufferTooSmall(required, |buf|));
    }
    var table := [];
    for i := 0 to h.blockCount
      invariant ReadU32s(buf, CHUNK_HEADER_SIZE, i) == Success(table)
    {
      var entry := ReadU32(buf, CHUNK_HEADER_SIZE + 4 * i);
      assert entry.Success?;
      table := table + [entry.value];
    }
    return Success((h, table));
  }

  lemma FixedRoundTrip(buf: Bytes, h: ChunkHeader)
    requires At(buf, 0, FixedFields(h))
    ensures ParseFixed(buf) == Success(h)
  {
    hide At, Encode, ReadU8, ReadU16, ReadU32;
    var f, n := Encode(FilterCode(h.filter) as nat, 1), Encode(h.blockCount, 2);
    var s, u, p := Encode(h.blockSize, 4), Encode(h.uncompressedLen, 4), Encode(h.payloadCrc, 4);
    Field(buf, 0, CodecCode(h.codec) as nat, 1, f + (n + (s + (u + p))));
    Field(buf, 1, FilterCode(h.filter) as nat, 1, n + (s + (u + p)));
    Field(buf, 2, h.blockCount, 2, s + (u + p));
    Field(buf, 4, h.blockSize, 4, u + p);
    Field(buf, 8, h.uncompressedLen, 4, p);
    assert p + [] == p;
    Field(buf, 12, h.payloadCrc, 4, []);
  }

  /** Whatever follows the header and table in the buffer, both are read back. */
  lemma RoundTrip(buf: Bytes, h: ChunkHeader, table: seq<u32>)
    requires At(buf, 0, FixedFields(h) + EncodeU32s(table))
    requires |table| == h.blockCount
    ensures Parse(buf) == Success((h, table))
  {
    hide *;
    FrontParts(buf, h, table);
    FixedRoundTrip(buf, h);
    ReadBackU32s(buf, CHUNK_HEADER_SIZE, table);
    ParseParts(buf, h, table);
  }

  lemma FrontParts(buf: Bytes, h: ChunkHeader, table: seq<u32>)
    requires At(buf, 0, FixedFields(h) + EncodeU32s(table))
    ensures At(buf, 0, FixedFields(h)) && At(buf, CHUNK_HEADER_SIZE, EncodeU32s(table))
    ensures |buf| >= CHUNK_HEADER_SIZE + 4 * |table|
  {
    hide FixedFields, EncodeU32s;
    AtSplit(buf, 0, FixedFields(h), EncodeU32s(table));
  }

  lemma ParseParts(buf: Bytes, h: ChunkHeader, table: seq<u32>)
    requires |buf| >= CHUNK_HEADER_SIZE + 4 * h.blockCount
    requires ParseFixed(buf) == Success(h)
    requires ReadU32s(buf, CHUNK_HEADER_SIZE, h.blockCount) == Success(table)
    ensures Parse(buf) == Success((h, table))
  {
    hide ParseFixed, ReadU32s;
  }

  /** `buf` grown with zero bytes to the next multiple of `align`; 0 means no alignment. */
  function Padded(buf: Bytes, align: u32): (padded: Bytes)
    ensures |buf| <= |padded| && padded[..|buf|] == buf
    ensures align > 0 ==> |padded| < |buf| + align && |padded| % align == 0
  {
    if align == 0 then buf
    else
      var remainder := |buf| % align;
      if remainder == 0 then buf
      else
        assert (|buf| + (align - remainder)) % align == 0 by {
          var q := |buf| / align;
          assert |buf| + (align - remainder) == align * (q + 1);
          DivModUnique(|buf| + (align - remainder), align, q + 1, 0);
        }
        buf + Zeros(align - remainder)
  }
}

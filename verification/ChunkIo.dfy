// Writing one segment as a chunk and reading it back (crates/tpx-shard/src/engine.rs, the write
// path of `put_with_retention` and `read_tensor_from_entry`).

module ChunkIo {
  import opened Wrappers
  import opened Types
  import opened LittleEndian
  import opened ChunkFormat
  import ChimpCodec
  import Filters

  /** The foreign functions the engine calls: hashes, checksum, LZ4 and Zstd. */
  datatype Env = Env(
    keyHash: Bytes -> u64,
    tocChecksum: (Bytes, nat) -> u64,
    contentHash: Bytes -> u128,
    crc: Bytes -> u32,
    lz4Compress: Bytes -> Bytes,
    lz4Decompress: Bytes -> Result<Bytes, TpxError>,
    zstdDecompress: (Bytes, nat) -> Result<Bytes, TpxError>)

  const MAX_SEGMENT := 512 * 1024

  /** LZ4 gives back what it was given, and a compressed segment fits a 32-bit chunk length. */
  ghost predicate Lawful(env: Env) {
    forall x: Bytes :: |x| <= MAX_SEGMENT ==>
                         env.lz4Decompress(env.lz4Compress(x)) == Success(x)
                         && |env.lz4Compress(x)| < U32_LIMIT - 2 * CHUNK_ALIGN
  }

  /** `auto_select` at the engine's fixed target of 250 MB/s. */
  function AutoSelect(sample: Bytes): (CodecId, FilterId) {
    if sample == [] then (Raw, NoFilter) else (Lz4, NoFilter)
  }

  function Compress(env: Env, codec: CodecId, data: Bytes): Bytes {
    if codec == Lz4 then env.lz4Compress(data) else data
  }

  /** Header, block table and payload of a segment, before padding. */
  function Payload(env: Env, segment: Bytes): Bytes
    requires |segment| <= MAX_SEGMENT
  {
    var (codec, filter) := AutoSelect(segment);
    var compressed := Compress(env, codec, segment);
    var header := ChunkHeader(codec, filter, 1, |segment|, |segment|, env.crc(compressed));
    (FixedFields(header) + EncodeU32s([|compressed| % U32_LIMIT])) + compressed
  }

  function Image(env: Env, segment: Bytes): Bytes
    requires |segment| <= MAX_SEGMENT
  {
    Padded(Payload(env, segment), CHUNK_ALIGN)
  }

  method BuildChunk(env: Env, segment: Bytes, dtype: DTypeId) returns (chunkBytes: Bytes)
    requires |segment| <= MAX_SEGMENT
    ensures chunkBytes == Image(env, segment)
  {
    var (codec, filter) := AutoSelect(segment);
    var filtered := Filters.ApplyFilter(filter, segment, dtype);
    var compressed := Compress(env, codec, filtered);
    var crc := env.crc(compressed);
    var header := ChunkHeader(codec, filter, 1, |segment|, |segment|, crc);
    chunkBytes := Serialize(header, [|compressed| % U32_LIMIT]);
    chunkBytes := chunkBytes + compressed;
    chunkBytes := Padded(chunkBytes, CHUNK_ALIGN);
  }

  function Sum(xs: seq<u32>): nat {
    if |xs| == 0 then 0 else Sum(xs[..|xs| - 1]) + xs[|xs| - 1]
  }

  function Decompress(env: Env, codec: CodecId, payload: Bytes, len: nat, dtype: DTypeId): Result<Bytes, TpxError> {
    match codec
    case Raw =>
      if |payload| != len then Failure(DecompressLengthMismatch(len, |payload|)) else Success(payload)
    case Lz4 =>
      var out :- env.lz4Decompress(payload);
      if |out| != len then Failure(DecompressLengthMismatch(len, |out|)) else Success(out)
    case Chimp128 => ChimpCodec.Decompressed(payload, len, dtype)
    case Zstd => env.zstdDecompress(payload, len)
  }

  /** `get_codec(id).decompress`. */
  method RunCodec(env: Env, codec: CodecId, payload: Bytes, len: nat, dtype: DTypeId) returns (r: Result<Bytes, TpxError>)
    ensures r == Decompress(env, codec, payload, len, dtype)
  {
    if codec == Chimp128 {
      r := ChimpCodec.Decompress(payload, len, dtype);
    } else {
      r := Decompress(env, codec, payload, len, dtype);
    }
  }

  /** From the bytes of a chunk to the bytes of its segment. */
  function DecodeChunk(env: Env, chunkBytes: Bytes, offset: nat, dtype: DTypeId): Result<Bytes, TpxError> {
    var parsed :- Parse(chunkBytes);
    var (header, table) := parsed;
    var payloadStart := CHUNK_HEADER_SIZE + 4 * |table|;
    var compressedLen := Sum(table);
    if payloadStart + compressedLen > |chunkBytes| then
      Failure(BufferTooSmall(payloadStart + compressedLen, |chunkBytes|))
    else
      var payload := chunkBytes[payloadStart..payloadStart + compressedLen];
      if env.crc(payload) != header.payloadCrc then
        Failure(ChunkCrcMismatch(offset, header.payloadCrc, env.crc(payload)))
      else
        var decompressed :- Decompress(env, header.codec, payload, header.uncompressedLen, dtype);
        Success(Filters.Revert(header.filter, decompressed, dtype))
  }

  /** `read_at` on the flat archive. */
  function ReadAt(log: Bytes, offset: nat, len: nat): Result<Bytes, TpxError> {
    if len == 0 then Success([])
    else if offset + len <= |log| then Success(log[offset..offset + len])
    else Failure(TpxError.Io)
  }

  function ReadChunk(env: Env, log: Bytes, r: ChunkRef, dtype: DTypeId): Result<Bytes, TpxError> {
    var chunkBytes :- ReadAt(log, r.chunkOffset, r.chunkLen);
    DecodeChunk(env, chunkBytes, r.chunkOffset, dtype)
  }

  /** The chunks of a tensor, concatenated. */
  function ReadChunks(env: Env, log: Bytes, rs: seq<ChunkRef>, dtype: DTypeId): Result<Bytes, TpxError> {
    if |rs| == 0 then Success([])
    else
      var front :- ReadChunks(env, log, rs[..|rs| - 1], dtype);
      var last :- ReadChunk(env, log, rs[|rs| - 1], dtype);
      Success(front + last)
  }

  /** The referenced chunk reads back as `segment`, whatever dtype the reader asks with. */
  ghost predicate Holds(env: Env, log: Bytes, r: ChunkRef, segment: Bytes) {
    forall d: DTypeId :: ReadChunk(env, log, r, d) == Success(segment)
  }

  lemma ImageSize(env: Env, segment: Bytes)
    requires Lawful(env) && 0 < |segment| <= MAX_SEGMENT
    ensures 0 < |Image(env, segment)| < U32_LIMIT && |Image(env, segment)| % CHUNK_ALIGN == 0
    ensures |env.lz4Compress(segment)| < U32_LIMIT
  {
    hide FixedFields, EncodeU32s;
    assert |env.lz4Compress(segment)| < U32_LIMIT - 2 * CHUNK_ALIGN;
  }

  /** A chunk image decodes to its segment, through header, table, checksum, LZ4 and padding. */
  lemma DecodeImage(env: Env, segment: Bytes, offset: nat, dtype: DTypeId)
    requires Lawful(env) && 0 < |segment| <= MAX_SEGMENT
    ensures DecodeChunk(env, Image(env, segment), offset, dtype) == Success(segment)
  {
    hide FixedFields, EncodeU32s, Parse, Padded;
    ImageSize(env, segment);
    var image, payload, c := Image(env, segment), Payload(env, segment), env.lz4Compress(segment);
    var header, table := ChunkHeader(Lz4, NoFilter, 1, |segment|, |segment|, env.crc(c)), [|c|];
    var front := FixedFields(header) + EncodeU32s(table);
    assert payload == front + c && image[..|payload|] == payload && |front| == 20;
    assert image[..20] == payload[..20] == front;
    assert image[20..20 + |c|] == payload[20..20 + |c|] == c;
    assert At(image, 0, front);
    RoundTrip(image, header, table);
    assert table[..0] == [] && Sum(table) == |c|;
  }

  /** Once a chunk image stands in the log, its reference reads the segment under every dtype. */
  lemma ImageHolds(env: Env, log: Bytes, shardId: u16, offset: nat, segment: Bytes)
    requires Lawful(env) && 0 < |segment| <= MAX_SEGMENT
    requires At(log, offset, Image(env, segment))
    ensures |Image(env, segment)| < U32_LIMIT
    ensures Holds(env, log, ChunkRef(shardId, offset, |Image(env, segment)|), segment)
  {
    hide DecodeChunk, Image;
    ImageSize(env, segment);
    forall d: DTypeId
      ensures ReadChunk(env, log, ChunkRef(shardId, offset, |Image(env, segment)|), d) == Success(segment)
    {
      DecodeImage(env, segment, offset, d);
    }
  }

  /** Appending to the log does not disturb what could be read before. */
  lemma ReadChunkGrows(env: Env, log: Bytes, longer: Bytes, r: ChunkRef, dtype: DTypeId)
    requires log <= longer && ReadChunk(env, log, r, dtype).Success?
    ensures ReadChunk(env, longer, r, dtype) == ReadChunk(env, log, r, dtype)
  {
    hide DecodeChunk;
    if r.chunkLen > 0 {
      assert longer[r.chunkOffset..r.chunkOffset + r.chunkLen] == log[r.chunkOffset..r.chunkOffset + r.chunkLen];
    }
  }

  lemma {:induction false} ReadChunksGrows(env: Env, log: Bytes, longer: Bytes, rs: seq<ChunkRef>, dtype: DTypeId)
    requires log <= longer && ReadChunks(env, log, rs, dtype).Success?
    ensures ReadChunks(env, longer, rs, dtype) == ReadChunks(env, log, rs, dtype)
  {
    hide ReadChunk;
    if |rs| > 0 {
      ReadChunksGrows(env, log, longer, rs[..|rs| - 1], dtype);
      ReadChunkGrows(env, log, longer, rs[|rs| - 1], dtype);
    }
  }

  lemma HoldsGrows(env: Env, log: Bytes, longer: Bytes, r: ChunkRef, segment: Bytes)
    requires log <= longer && Holds(env, log, r, segment)
    ensures Holds(env, longer, r, segment)
  {
    hide ReadChunk;
    forall d: DTypeId ensures ReadChunk(env, longer, r, d) == Success(segment) {
      ReadChunkGrows(env, log, longer, r, d);
    }
  }
}

// What the reader makes of any chunk, whoever wrote it: which bytes it accepts, and how it refuses the
// others (crates/tpx-shard/src/engine.rs, `read_tensor_from_entry`).

module ChunkDecoding {
  import opened Wrappers
  import opened Types
  import opened LittleEndian
  import opened ChunkFormat
  import opened ChunkIo
  import opened TocFormat
  import opened History
  import ChimpCodec
  import Filters
  import Layout

  /** Blocks one after the other. */
  function Flat(blocks: seq<Bytes>): Bytes {
    if blocks == [] then [] else blocks[0] + Flat(blocks[1..])
  }

  /** The bytes begin with this header, the lengths of the blocks, and the blocks. */
  ghost predicate Framed(bytes: Bytes, h: ChunkHeader, table: seq<u32>, blocks: seq<Bytes>) {
    && |table| == |blocks| == h.blockCount && (forall k :: 0 <= k < |blocks| ==> table[k] == |blocks[k]|)
    && FixedFields(h) + EncodeU32s(table) + Flat(blocks) <= bytes
  }

  /** The checksum in the header is not that of the blocks. */
  ghost predicate Corrupt(env: Env, bytes: Bytes, offset: nat, error: TpxError) {
    exists h, table, blocks ::
      Framed(bytes, h, table, blocks) && env.crc(Flat(blocks)) != h.payloadCrc
      && error == ChunkCrcMismatch(offset, h.payloadCrc, env.crc(Flat(blocks)))
  }

  /** The checksum is right, but the blocks do not decompress, or not to the announced length. */
  ghost predicate Misfit(env: Env, bytes: Bytes, error: TpxError) {
    exists h, table, blocks ::
      && Framed(bytes, h, table, blocks) && env.crc(Flat(blocks)) == h.payloadCrc
      && ((h.codec == Raw && |Flat(blocks)| != h.uncompressedLen
           && error == DecompressLengthMismatch(h.uncompressedLen, |Flat(blocks)|))
          || (h.codec == Lz4 && env.lz4Decompress(Flat(blocks)).Success?
              && |env.lz4Decompress(Flat(blocks)).value| != h.uncompressedLen
              && error == DecompressLengthMismatch(h.uncompressedLen, |env.lz4Decompress(Flat(blocks)).value|))
          || (h.codec == Lz4 && env.lz4Decompress(Flat(blocks)) == Failure(error)))
  }

  /** `segment` is what the header's codec and filter make of blocks with the right checksum. */
  ghost predicate Sealed(env: Env, bytes: Bytes, dtype: DTypeId, segment: Bytes) {
    exists h, table, blocks, data ::
      && Framed(bytes, h, table, blocks) && env.crc(Flat(blocks)) == h.payloadCrc
      && Unpacks(env, h, Flat(blocks), dtype, data) && segment == Filters.Revert(h.filter, data, dtype)
  }

  /** Each codec on its own payload; all but Zstd check the announced length themselves. */
  ghost predicate Unpacks(env: Env, h: ChunkHeader, payload: Bytes, dtype: DTypeId, data: Bytes) {
    && (h.codec == Raw ==> data == payload && |data| == h.uncompressedLen)
    && (h.codec == Lz4 ==> env.lz4Decompress(payload) == Success(data) && |data| == h.uncompressedLen)
    && (h.codec == Chimp128 ==> ChimpCodec.Decompressed(payload, h.uncompressedLen, dtype) == Success(data))
    && (h.codec == Zstd ==> env.zstdDecompress(payload, h.uncompressedLen) == Success(data))
  }

  // ---------- written chunks ----------

  /**
   * The bytes that a segment is written as: a header for one LZ4 block without a filter, the length of the
   * block, the block, and zeros up to whole pages.
   */
  lemma ImageLayout(env: Env, segment: Bytes)
    requires Lawful(env) && 0 < |segment| <= MAX_SEGMENT
    ensures var (bs, c) := (Image(env, segment), env.lz4Compress(segment));
            && 20 + |c| <= |bs| < 20 + |c| + 4096 && |bs| % 4096 == 0
            && Layout.ChunkFront(bs, ChunkHeader(Lz4, NoFilter, 1, |segment|, |segment|, env.crc(c))) && Digits(bs, 16, |c|, 4)
            && bs[20..20 + |c|] == c && forall i :: 20 + |c| <= i < |bs| ==> bs[i] == 0
  {
    hide FixedFields, EncodeU32s, Padded, Encode, Digits, Layout.ChunkFront;
    ImageSize(env, segment);
    var bs, c := Image(env, segment), env.lz4Compress(segment);
    var header := ChunkHeader(Lz4, NoFilter, 1, |segment|, |segment|, env.crc(c));
    var payload := Payload(env, segment);
    var front := FixedFields(header);
    OneLength(|c|);
    assert payload == (front + Encode(|c|, 4)) + c && |front| == 16;
    PaddedZeros(payload);
    assert bs[20..20 + |c|] == payload[20..20 + |c|] == c;
    assert bs[..16] == payload[..16] == front;
    Layout.ChunkLayout(header);
    FrontStays(front, bs, header);
    assert bs[16..20] == payload[16..20] == Encode(|c|, 4);
    DigitsAt(bs, 16, |c|, 4);
  }

  lemma FrontStays(front: Bytes, bs: Bytes, h: ChunkHeader)
    requires Layout.ChunkFront(front, h) && |front| == 16 <= |bs| && bs[..16] == front
    ensures Layout.ChunkFront(bs, h)
  {
    assert forall i :: 0 <= i < 16 ==> bs[i] == bs[..16][i];
  }

  lemma OneLength(n: u32)
    ensures EncodeU32s([n]) == Encode(n, 4)
  {
    hide Encode;
    assert [n][..0] == [];
  }

  lemma PaddedZeros(buf: Bytes)
    ensures forall i :: |buf| <= i < |Padded(buf, CHUNK_ALIGN)| ==> Padded(buf, CHUNK_ALIGN)[i] == 0
  {
  }

  // ---------- framed chunks ----------

  lemma {:induction false} FlatSize(table: seq<u32>, blocks: seq<Bytes>)
    requires |table| == |blocks| && forall k :: 0 <= k < |blocks| ==> table[k] == |blocks[k]|
    ensures |Flat(blocks)| == Sum(table)
  {
    if blocks != [] {
      FlatSize(table[1..], blocks[1..]);
      SumFirst(table);
    }
  }

  lemma {:induction false} SumFirst(xs: seq<u32>)
    requires xs != []
    ensures Sum(xs) == xs[0] + Sum(xs[1..])
  {
    if |xs| > 1 {
      SumFirst(xs[..|xs| - 1]);
      assert xs[..|xs| - 1][1..] == xs[1..][..|xs| - 2];
    }
  }

  /** Header and table are found, and the payload is all of the blocks. */
  lemma FramedParses(bytes: Bytes, h: ChunkHeader, table: seq<u32>, blocks: seq<Bytes>)
    requires Framed(bytes, h, table, blocks)
    ensures Parse(bytes) == Success((h, table))
    ensures var start, len := 16 + 4 * |table|, Sum(table);
            start + len <= |bytes| && bytes[start..start + len] == Flat(blocks)
  {
    hide FixedFields, EncodeU32s, Parse, Sum;
    var front := FixedFields(h) + EncodeU32s(table);
    FlatSize(table, blocks);
    assert bytes[0..|front|] == (front + Flat(blocks))[..|front|] == front;
    assert bytes[..|front + Flat(blocks)|] == front + Flat(blocks);
    assert bytes[|front|..|front| + |Flat(blocks)|] == Flat(blocks);
    RoundTrip(bytes, h, table);
  }

  /** A chunk with a wrong checksum is refused with both checksums, whatever its payload would decode to. */
  lemma CorruptIsRefused(env: Env, bytes: Bytes, offset: nat, dtype: DTypeId, error: TpxError)
    requires Corrupt(env, bytes, offset, error)
    ensures DecodeChunk(env, bytes, offset, dtype) == Failure(error)
  {
    hide Parse, Sum, Framed, Flat;
    var h, table, blocks :|
      Framed(bytes, h, table, blocks) && env.crc(Flat(blocks)) != h.payloadCrc
      && error == ChunkCrcMismatch(offset, h.payloadCrc, env.crc(Flat(blocks)));
    FramedParses(bytes, h, table, blocks);
    assert |table| == h.blockCount by { FramedTable(bytes, h, table, blocks); }
  }

  lemma FramedTable(bytes: Bytes, h: ChunkHeader, table: seq<u32>, blocks: seq<Bytes>)
    requires Framed(bytes, h, table, blocks)
    ensures |table| == h.blockCount
  {
  }

  /** A chunk that does not decompress is refused with that error, and one of another length with both lengths. */
  lemma MisfitIsRefused(env: Env, bytes: Bytes, offset: nat, dtype: DTypeId, error: TpxError)
    requires Misfit(env, bytes, error)
    ensures DecodeChunk(env, bytes, offset, dtype) == Failure(error)
  {
    hide Parse, Sum, Framed, Flat;
    var h, table, blocks :|
      && Framed(bytes, h, table, blocks) && env.crc(Flat(blocks)) == h.payloadCrc
      && ((h.codec == Raw && |Flat(blocks)| != h.uncompressedLen
           && error == DecompressLengthMismatch(h.uncompressedLen, |Flat(blocks)|))
          || (h.codec == Lz4 && env.lz4Decompress(Flat(blocks)).Success?
              && |env.lz4Decompress(Flat(blocks)).value| != h.uncompressedLen
              && error == DecompressLengthMismatch(h.uncompressedLen, |env.lz4Decompress(Flat(blocks)).value|))
          || (h.codec == Lz4 && env.lz4Decompress(Flat(blocks)) == Failure(error)));
    FramedParses(bytes, h, table, blocks);
  }

  /** A chunk whose blocks end too early is refused with the sizes. */
  lemma ShortPayloadIsRefused(env: Env, bytes: Bytes, h: ChunkHeader, table: seq<u32>, offset: nat, dtype: DTypeId)
    requires |table| == h.blockCount && FixedFields(h) + EncodeU32s(table) <= bytes && |bytes| < 16 + 4 * |table| + Sum(table)
    ensures DecodeChunk(env, bytes, offset, dtype) == Failure(BufferTooSmall(16 + 4 * |table| + Sum(table), |bytes|))
  {
    hide FixedFields, EncodeU32s, Parse, Sum;
    var front := FixedFields(h) + EncodeU32s(table);
    assert bytes[0..|front|] == front;
    RoundTrip(bytes, h, table);
  }

  // ---------- accepted chunks ----------

  lemma {:induction false} Blocks(payload: Bytes, table: seq<u32>) returns (blocks: seq<Bytes>)
    requires |payload| == Sum(table)
    ensures |blocks| == |table| && (forall k :: 0 <= k < |blocks| ==> table[k] == |blocks[k]|) && Flat(blocks) == payload
  {
    if table == [] {
      blocks := [];
    } else {
      SumFirst(table);
      var rest := Blocks(payload[table[0]..], table[1..]);
      blocks := [payload[..table[0]]] + rest;
      assert blocks[1..] == rest;
    }
  }

  /** Reading fixed fields and writing them again gives the bytes back. */
  lemma ParsedFront(bytes: Bytes)
    requires |bytes| >= 16 && ParseFixed(bytes).Success?
    ensures FixedFields(ParseFixed(bytes).value) == bytes[..16]
  {
    hide Encode, Decode;
    var h := ParseFixed(bytes).value;
    CodeBack(ReadU8(bytes, 0).value);
    EncodeDecode(bytes[0..1]);
    EncodeDecode(bytes[1..2]);
    EncodeDecode(bytes[2..4]);
    EncodeDecode(bytes[4..8]);
    EncodeDecode(bytes[8..12]);
    EncodeDecode(bytes[12..16]);
    CodeBack(ReadU8(bytes, 1).value);
    Six(bytes);
  }

  lemma CodeBack(b: u8)
    ensures CodecFromU8(b).Success? ==> CodecCode(CodecFromU8(b).value) == b
    ensures FilterFromU8(b).Success? ==> FilterCode(FilterFromU8(b).value) == b
  {
  }

  lemma Six(bytes: Bytes)
    requires |bytes| >= 16
    ensures bytes[..16] == bytes[0..1] + (bytes[1..2] + (bytes[2..4] + (bytes[4..8] + (bytes[8..12] + bytes[12..16]))))
  {
  }

  lemma {:induction false} ParsedTable(bytes: Bytes, pos: nat, n: nat)
    requires ReadU32s(bytes, pos, n).Success?
    ensures pos + 4 * n <= |bytes| || n == 0
    ensures n > 0 ==> EncodeU32s(ReadU32s(bytes, pos, n).value) == bytes[pos..pos + 4 * n]
    ensures n == 0 ==> ReadU32s(bytes, pos, n).value == []
  {
    hide Encode, Decode;
    if n > 0 {
      ParsedTable(bytes, pos, n - 1);
      var at := pos + 4 * (n - 1);
      EncodeDecode(bytes[at..at + 4]);
      assert bytes[pos..pos + 4 * n] == bytes[pos..at] + bytes[at..at + 4];
    }
  }

  /** Whatever is accepted is framed by the parsed header and table. */
  lemma AcceptedIsFramed(env: Env, bytes: Bytes, offset: nat, dtype: DTypeId)
      returns (h: ChunkHeader, table: seq<u32>, blocks: seq<Bytes>)
    requires DecodeChunk(env, bytes, offset, dtype).Success?
    ensures Parse(bytes) == Success((h, table)) && Framed(bytes, h, table, blocks)
    ensures env.crc(Flat(blocks)) == h.payloadCrc
    ensures Decompress(env, h.codec, Flat(blocks), h.uncompressedLen, dtype).Success?
    ensures DecodeChunk(env, bytes, offset, dtype)
            == Success(Filters.Revert(h.filter, Decompress(env, h.codec, Flat(blocks), h.uncompressedLen, dtype).value, dtype))
  {
    hide FixedFields, EncodeU32s, ParseFixed, ReadU32s, Sum, Decompress, Filters.Revert, Flat;
    h, table := Parse(bytes).value.0, Parse(bytes).value.1;
    var start, len := 16 + 4 * |table|, Sum(table);
    var payload := bytes[start..start + len];
    blocks := Blocks(payload, table);
    ParsedFront(bytes);
    ParsedTable(bytes, 16, h.blockCount);
    var front := FixedFields(h) + EncodeU32s(table);
    assert front == bytes[..start];
    assert front + payload == bytes[..start + len];
  }

  /** What the reader returns has the right checksum and comes out of the blocks by codec and filter. */
  lemma AcceptedIsSealed(env: Env, bytes: Bytes, offset: nat, dtype: DTypeId)
    requires DecodeChunk(env, bytes, offset, dtype).Success?
    ensures Sealed(env, bytes, dtype, DecodeChunk(env, bytes, offset, dtype).value)
  {
    hide DecodeChunk, Framed, Flat, Filters.Revert, ChimpCodec.Decompressed, Parse;
    var h, table, blocks := AcceptedIsFramed(env, bytes, offset, dtype);
    var data := Decompress(env, h.codec, Flat(blocks), h.uncompressedLen, dtype).value;
    assert Unpacks(env, h, Flat(blocks), dtype, data);
  }

  /** And whatever is sealed is returned. */
  lemma SealedIsAccepted(env: Env, bytes: Bytes, offset: nat, dtype: DTypeId, segment: Bytes)
    requires Sealed(env, bytes, dtype, segment)
    ensures DecodeChunk(env, bytes, offset, dtype) == Success(segment)
  {
    hide Parse, Sum, Framed, Flat, Filters.Revert, ChimpCodec.Decompressed;
    var h, table, blocks, data :|
      Framed(bytes, h, table, blocks) && env.crc(Flat(blocks)) == h.payloadCrc
      && Unpacks(env, h, Flat(blocks), dtype, data) && segment == Filters.Revert(h.filter, data, dtype);
    FramedParses(bytes, h, table, blocks);
    assert |table| == h.blockCount by { FramedTable(bytes, h, table, blocks); }
  }

  /** Any bytes: damage is reported as such, and exactly what is sealed is returned. */
  lemma DecodingIsHonest(env: Env, bytes: Bytes, offset: nat, dtype: DTypeId)
    ensures forall error :: Corrupt(env, bytes, offset, error) || Misfit(env, bytes, error) ==>
                              DecodeChunk(env, bytes, offset, dtype) == Failure(error)
    ensures forall segment :: Sealed(env, bytes, dtype, segment) <==> DecodeChunk(env, bytes, offset, dtype) == Success(segment)
  {
    hide DecodeChunk, Corrupt, Misfit, Sealed;
    forall segment | Sealed(env, bytes, dtype, segment) ensures DecodeChunk(env, bytes, offset, dtype) == Success(segment) {
      SealedIsAccepted(env, bytes, offset, dtype, segment);
    }
    forall error | Corrupt(env, bytes, offset, error) || Misfit(env, bytes, error)
      ensures DecodeChunk(env, bytes, offset, dtype) == Failure(error)
    {
      if Corrupt(env, bytes, offset, error) {
        CorruptIsRefused(env, bytes, offset, dtype, error);
      } else {
        MisfitIsRefused(env, bytes, offset, dtype, error);
      }
    }
    if DecodeChunk(env, bytes, offset, dtype).Success? {
      AcceptedIsSealed(env, bytes, offset, dtype);
    }
  }

  // ---------- whole tensors ----------

  /** The bytes that a reference stands for. */
  ghost predicate ChunkBytes(log: Bytes, r: ChunkRef, bytes: Bytes) {
    r.chunkLen > 0 && r.chunkOffset + r.chunkLen <= |log| && bytes == log[r.chunkOffset..r.chunkOffset + r.chunkLen]
  }

  ghost predicate DamagedAt(env: Env, log: Bytes, r: ChunkRef, error: TpxError) {
    exists bytes :: ChunkBytes(log, r, bytes) && (Corrupt(env, bytes, r.chunkOffset, error) || Misfit(env, bytes, error))
  }

  ghost predicate SealedAt(env: Env, log: Bytes, r: ChunkRef, dtype: DTypeId, segment: Bytes) {
    exists bytes :: ChunkBytes(log, r, bytes) && Sealed(env, bytes, dtype, segment)
  }

  /** The first chunk of the entry that does not read is damaged, and the error is its own. */
  ghost predicate Damaged(env: Env, log: Bytes, e: TocEntry, error: TpxError) {
    exists i ::
      && 0 <= i < |e.chunkRefs| && DamagedAt(env, log, e.chunkRefs[i], error)
      && forall j :: 0 <= j < i ==> ReadChunk(env, log, e.chunkRefs[j], e.dtype).Success?
  }

  /** Every chunk of the entry is there with its right checksum, and `data` is what they hold. */
  ghost predicate Undamaged(env: Env, log: Bytes, e: TocEntry, data: Bytes) {
    exists segments: seq<Bytes> ::
      && |segments| == |e.chunkRefs| && data == Flat(segments)
      && forall i :: 0 <= i < |segments| ==> SealedAt(env, log, e.chunkRefs[i], e.dtype, segments[i])
  }

  lemma DamagedChunk(env: Env, log: Bytes, r: ChunkRef, dtype: DTypeId, error: TpxError)
    requires DamagedAt(env, log, r, error)
    ensures ReadChunk(env, log, r, dtype) == Failure(error)
  {
    hide DecodeChunk, Corrupt, Misfit;
    var bytes :| ChunkBytes(log, r, bytes) && (Corrupt(env, bytes, r.chunkOffset, error) || Misfit(env, bytes, error));
    if Corrupt(env, bytes, r.chunkOffset, error) {
      CorruptIsRefused(env, bytes, r.chunkOffset, dtype, error);
    } else {
      MisfitIsRefused(env, bytes, r.chunkOffset, dtype, error);
    }
  }

  lemma {:induction false} AllRead(env: Env, log: Bytes, rs: seq<ChunkRef>, dtype: DTypeId)
    requires forall j :: 0 <= j < |rs| ==> ReadChunk(env, log, rs[j], dtype).Success?
    ensures ReadChunks(env, log, rs, dtype).Success?
  {
    hide ReadChunk;
    if |rs| > 0 {
      AllRead(env, log, rs[..|rs| - 1], dtype);
    }
  }

  /** The first chunk that cannot be read decides the error of the whole tensor. */
  lemma {:induction false} FirstBadChunk(env: Env, log: Bytes, rs: seq<ChunkRef>, dtype: DTypeId, i: nat, error: TpxError)
    requires i < |rs| && ReadChunks(env, log, rs[..i], dtype).Success?
    requires ReadChunk(env, log, rs[i], dtype) == Failure(error)
    ensures ReadChunks(env, log, rs, dtype) == Failure(error)
  {
    hide ReadChunk;
    var init := rs[..|rs| - 1];
    if i < |rs| - 1 {
      assert init[..i] == rs[..i];
      FirstBadChunk(env, log, init, dtype, i, error);
    }
  }

  /** A damaged chunk is reported, and never returned as data. */
  lemma DamageIsReported(env: Env, log: Bytes, e: TocEntry, error: TpxError)
    requires Damaged(env, log, e, error)
    ensures ReadTensor(env, log, e) == Failure(error)
  {
    hide ReadChunk, DamagedAt;
    var rs := e.chunkRefs;
    var i :| 0 <= i < |rs| && DamagedAt(env, log, rs[i], error)
             && forall j :: 0 <= j < i ==> ReadChunk(env, log, rs[j], e.dtype).Success?;
    DamagedChunk(env, log, rs[i], e.dtype, error);
    AllRead(env, log, rs[..i], e.dtype);
    FirstBadChunk(env, log, rs, e.dtype, i, error);
  }

  lemma ReadIsSealed(env: Env, log: Bytes, r: ChunkRef, dtype: DTypeId)
    requires ReadChunk(env, log, r, dtype).Success?
    ensures SealedAt(env, log, r, dtype, ReadChunk(env, log, r, dtype).value)
  {
    hide DecodeChunk, Sealed;
    var bytes := ChunkIo.ReadAt(log, r.chunkOffset, r.chunkLen).value;
    NoEmptyChunk(env, r.chunkOffset, dtype);
    assert ChunkBytes(log, r, bytes);
    AcceptedIsSealed(env, bytes, r.chunkOffset, dtype);
  }

  lemma NoEmptyChunk(env: Env, offset: nat, dtype: DTypeId)
    ensures DecodeChunk(env, [], offset, dtype).Failure?
  {
  }

  lemma {:induction false} FlatSnoc(a: seq<Bytes>, b: Bytes)
    ensures Flat(a + [b]) == Flat(a) + b
  {
    if a == [] {
      assert a + [b] == [b] && [b][1..] == [];
    } else {
      FlatSnoc(a[1..], b);
      assert (a + [b])[1..] == a[1..] + [b];
    }
  }

  lemma {:induction false} SegmentsRead(env: Env, log: Bytes, rs: seq<ChunkRef>, dtype: DTypeId) returns (segments: seq<Bytes>)
    requires ReadChunks(env, log, rs, dtype).Success?
    ensures |segments| == |rs| && ReadChunks(env, log, rs, dtype).value == Flat(segments)
    ensures forall i :: 0 <= i < |rs| ==> SealedAt(env, log, rs[i], dtype, segments[i])
  {
    hide ReadChunk, SealedAt, Flat;
    if |rs| == 0 {
      segments := [];
      assert Flat([]) == [] by { FlatNone(); }
    } else {
      var n := |rs| - 1;
      var front := SegmentsRead(env, log, rs[..n], dtype);
      var last := ReadChunk(env, log, rs[n], dtype).value;
      ReadIsSealed(env, log, rs[n], dtype);
      FlatSnoc(front, last);
      segments := front + [last];
    }
  }

  lemma FlatNone()
    ensures Flat([]) == []
  {
  }

  /** A tensor that is returned comes out of chunks with the right checksums. */
  lemma SuccessIsUndamaged(env: Env, log: Bytes, e: TocEntry)
    requires ReadTensor(env, log, e).Success?
    ensures var t := ReadTensor(env, log, e).value; t.dtype == e.dtype && t.shape == e.shape && Undamaged(env, log, e, t.data)
  {
    hide SealedAt, Flat, ReadChunks;
    var segments := SegmentsRead(env, log, e.chunkRefs, e.dtype);
  }

  /** Any entry: damage is reported as such, and a tensor that is returned was sealed. */
  lemma ReadingIsHonest(env: Env, log: Bytes, e: TocEntry)
    ensures forall error :: Damaged(env, log, e, error) ==> ReadTensor(env, log, e) == Failure(error)
    ensures ReadTensor(env, log, e).Success? ==> Undamaged(env, log, e, ReadTensor(env, log, e).value.data)
  {
    hide ReadTensor, Damaged, Undamaged;
    forall error | Damaged(env, log, e, error) ensures ReadTensor(env, log, e) == Failure(error) {
      DamageIsReported(env, log, e, error);
    }
    if ReadTensor(env, log, e).Success? {
      SuccessIsUndamaged(env, log, e);
    }
  }
}

// The on-disk records byte by byte: which digits stand where, which codes and magics mean what, and what
// the parsers do with bytes that no writer produced (crates/tpx-core/src/header.rs, footer.rs, chunk.rs,
// attrs.rs, types.rs and crates/tpx-index/src/toc.rs).

module Layout {
  import opened Wrappers
  import opened Types
  import opened LittleEndian
  import opened AttrsFormat
  import opened TocFormat
  import opened Utf8Text
  import ChunkFormat
  import FooterFormat
  import HeaderFormat
  import Utf8

  const CODECS := [Raw, Chimp128, Zstd, Lz4]
  const FILTERS := [NoFilter, ByteShuffle, BitShuffle, DeltaZigZag]
  const DTYPES :=
    [Float64, Float32, Float16, BFloat16, Int64, Int32, Int16, Int8, UInt64, UInt32, UInt16, UInt8, Bool]

  /** A code is the place of its value in the list; codes past the end are refused with the code. */
  lemma Codes(b: u8)
    ensures CodecFromU8(b) == if b < 4 then Success(CODECS[b]) else Failure(InvalidCodec(b))
    ensures FilterFromU8(b) == if b < 4 then Success(FILTERS[b]) else Failure(InvalidFilter(b))
    ensures DTypeFromU8(b) == if b < 13 then Success(DTYPES[b]) else Failure(InvalidDType(b))
    ensures b < 4 ==> CodecCode(CODECS[b]) == b && FilterCode(FILTERS[b]) == b
    ensures b < 13 ==> DTypeCode(DTYPES[b]) == b
  {
  }

  lemma OneByte(buf: Bytes, pos: nat)
    ensures ReadU8(buf, pos) == if pos < |buf| then Success(buf[pos]) else Failure(TpxError.Io)
  {
    if pos < |buf| {
      assert buf[pos..pos + 1] == [buf[pos]];
      assert [buf[pos]][1..] == [];
    }
  }

  /** Fields of more than one byte. */
  lemma Numbers(buf: Bytes, pos: nat)
    ensures if pos + 2 <= |buf| then ReadU16(buf, pos).Success? && Digits(buf, pos, ReadU16(buf, pos).value, 2)
            else ReadU16(buf, pos) == Failure(TpxError.Io)
    ensures if pos + 4 <= |buf| then ReadU32(buf, pos).Success? && Digits(buf, pos, ReadU32(buf, pos).value, 4)
            else ReadU32(buf, pos) == Failure(TpxError.Io)
    ensures if pos + 8 <= |buf| then ReadU64(buf, pos).Success? && Digits(buf, pos, ReadU64(buf, pos).value, 8)
            else ReadU64(buf, pos) == Failure(TpxError.Io)
  {
    hide Digits;
    ReadDigits(buf, pos, 2);
    ReadDigits(buf, pos, 4);
    ReadDigits(buf, pos, 8);
  }

  // ---------- file header ----------

  /** "TPX" and 1, version 1.0, the checksum flag, alignment, block size 65536, shard count, zeros. */
  lemma HeaderLayout(shardCount: u16, chunkAlign: u32)
    ensures var bs := HeaderFormat.HeaderBytes(shardCount, chunkAlign);
            && |bs| == 48 && bs[..4] == [0x54, 0x50, 0x58, 0x01] && Digits(bs, 4, 0x0100, 2) && Digits(bs, 6, 2, 2)
            && Digits(bs, 8, chunkAlign, 4) && Digits(bs, 12, 65536, 4) && Digits(bs, 16, shardCount, 2)
            && forall i :: 18 <= i < 48 ==> bs[i] == 0
  {
    hide At, Encode, Digits;
    var bs := HeaderFormat.HeaderBytes(shardCount, chunkAlign);
    var z := Encode(shardCount, 2) + Zeros(30);
    var y := Encode(chunkAlign, 4) + (Encode(65536, 4) + z);
    AtWhole(bs);
    AtSplit(bs, 0, MAGIC, Encode(0x0100, 2) + (Encode(0x02, 2) + y));
    Stands(bs, 4, 0x0100, 2, Encode(0x02, 2) + y);
    Stands(bs, 6, 0x02, 2, y);
    Stands(bs, 8, chunkAlign, 4, Encode(65536, 4) + z);
    Stands(bs, 12, 65536, 4, z);
    Stands(bs, 16, shardCount, 2, Zeros(30));
    Found(bs, 0, MAGIC);
    Found(bs, 18, Zeros(30));
    forall i | 18 <= i < 48 ensures bs[i] == 0 {
      assert bs[18..48][i - 18] == 0;
    }
  }

  lemma Stands(bs: Bytes, pos: nat, n: nat, width: nat, rest: Bytes)
    requires At(bs, pos, Encode(n, width) + rest)
    ensures Digits(bs, pos, n, width) && At(bs, pos + width, rest)
  {
    hide Encode;
    AtSplit(bs, pos, Encode(n, width), rest);
    DigitsAt(bs, pos, n, width);
  }

  lemma Found(bs: Bytes, pos: nat, piece: Bytes)
    requires At(bs, pos, piece)
    ensures pos + |piece| <= |bs| && bs[pos..pos + |piece|] == piece
  {
  }

  /** Any bytes: too short, another magic, a major version above one, or alignment and shard count. */
  lemma HeaderParse(buf: Bytes)
    ensures var r := HeaderFormat.ParseHeader(buf);
            && (|buf| < 48 ==> r == Failure(BufferTooSmall(48, |buf|)))
            && (|buf| >= 48 && buf[..4] != [0x54, 0x50, 0x58, 0x01] ==> r == Failure(InvalidMagic))
            && (|buf| >= 48 && buf[..4] == [0x54, 0x50, 0x58, 0x01] ==>
                  && (buf[5] > 1 ==> r.Failure? && r.error.UnsupportedVersion? && Digits(buf, 4, r.error.format, 2))
                  && (buf[5] <= 1 ==> r.Success? && Digits(buf, 8, r.value.0, 4) && Digits(buf, 16, r.value.1, 2)))
  {
    hide Digits;
    if |buf| >= 48 {
      Numbers(buf, 4);
      Numbers(buf, 8);
      Numbers(buf, 16);
      assert buf[0..4] == buf[..4];
      HighByte(buf, 4, ReadU16(buf, 4).value);
    }
  }

  lemma HighByte(buf: Bytes, pos: nat, n: u16)
    requires Digits(buf, pos, n, 2)
    ensures n / 256 == buf[pos + 1] as nat
  {
    assert Pow256(1) == 256 * Pow256(0);
    assert buf[pos + 1] as nat == n / Pow256(1) % 256;
  }

  // ---------- footer ----------

  lemma FooterLayout(f: FooterFormat.Footer)
    requires |f.magicEnd| == 4
    ensures var bs := FooterFormat.Serialize(f);
            && |bs| == 24 && Digits(bs, 0, f.tocOffset, 8) && Digits(bs, 8, f.totalChunks, 4) && Digits(bs, 12, f.checksum, 8)
            && bs[20..24] == f.magicEnd
  {
    hide At, Encode, Digits;
    var bs := FooterFormat.Serialize(f);
    AtWhole(bs);
    Stands(bs, 0, f.tocOffset, 8, Encode(f.totalChunks, 4) + (Encode(f.checksum, 8) + f.magicEnd));
    Stands(bs, 8, f.totalChunks, 4, Encode(f.checksum, 8) + f.magicEnd);
    Stands(bs, 12, f.checksum, 8, f.magicEnd);
    Found(bs, 20, f.magicEnd);
  }

  /** Any bytes: the last 24 are a footer if and only if they end in "1XPT" or "1XPC". */
  lemma FooterParse(buf: Bytes)
    ensures var r := FooterFormat.Deserialize(buf);
            && (|buf| < 24 ==> r == Failure(BufferTooSmall(24, |buf|)))
            && (|buf| >= 24 ==>
                  && var (at, magic) := (|buf| - 24, buf[|buf| - 4..]);
                  && (magic != [0x31, 0x58, 0x50, 0x54] && magic != [0x31, 0x58, 0x50, 0x43] ==> r == Failure(InvalidEndMagic))
                  && (magic == [0x31, 0x58, 0x50, 0x54] || magic == [0x31, 0x58, 0x50, 0x43] ==>
                        && r.Success? && r.value.magicEnd == magic && Digits(buf, at, r.value.tocOffset, 8)
                        && Digits(buf, at + 8, r.value.totalChunks, 4) && Digits(buf, at + 12, r.value.checksum, 8)))
  {
    hide Digits;
    if |buf| >= 24 {
      var at := |buf| - 24;
      var slice := buf[at..];
      Numbers(slice, 0);
      Numbers(slice, 8);
      Numbers(slice, 12);
      assert slice[20..24] == buf[|buf| - 4..];
      DigitsMove(buf, at, 0, ReadU64(slice, 0).value, 8);
      DigitsMove(buf, at, 8, ReadU32(slice, 8).value, 4);
      DigitsMove(buf, at, 12, ReadU64(slice, 12).value, 8);
    }
  }

  lemma DigitsMove(buf: Bytes, at: nat, pos: nat, n: nat, width: nat)
    requires at <= |buf| && Digits(buf[at..], pos, n, width)
    ensures Digits(buf, at + pos, n, width)
  {
    forall i | 0 <= i < width ensures buf[at + pos + i] as nat == n / Pow256(i) % 256 {
      assert buf[at..][pos + i] == buf[at + pos + i];
    }
  }

  /** A checkpoint ends in "1XPC", a final footer in "1XPT". */
  lemma EndMagics(tocOffset: u64, totalChunks: u32, checksum: u64)
    ensures FooterFormat.NewFooter(tocOffset, totalChunks, checksum, true).magicEnd == [0x31, 0x58, 0x50, 0x43]
    ensures FooterFormat.NewFooter(tocOffset, totalChunks, checksum, false).magicEnd == [0x31, 0x58, 0x50, 0x54]
  {
  }

  // ---------- chunk header and block table ----------

  /** What stands in front of a chunk. */
  ghost predicate ChunkFront(bs: Bytes, h: ChunkFormat.ChunkHeader) {
    && |bs| >= 16 && bs[0] < 4 && bs[1] < 4 && CODECS[bs[0]] == h.codec && FILTERS[bs[1]] == h.filter
    && Digits(bs, 2, h.blockCount, 2) && Digits(bs, 4, h.blockSize, 4)
    && Digits(bs, 8, h.uncompressedLen, 4) && Digits(bs, 12, h.payloadCrc, 4)
  }

  lemma ChunkLayout(h: ChunkFormat.ChunkHeader)
    ensures ChunkFront(ChunkFormat.FixedFields(h), h) && |ChunkFormat.FixedFields(h)| == 16
  {
    hide At, Encode, Digits, CodecCode, FilterCode;
    var bs := ChunkFormat.FixedFields(h);
    var c, g := CodecCode(h.codec), FilterCode(h.filter);
    var p := Encode(h.payloadCrc, 4);
    var u := Encode(h.uncompressedLen, 4) + p;
    var s := Encode(h.blockSize, 4) + u;
    var n := Encode(h.blockCount, 2) + s;
    AtWhole(bs);
    Field(bs, 0, c as nat, 1, Encode(g as nat, 1) + n);
    Field(bs, 1, g as nat, 1, n);
    OneByte(bs, 0);
    OneByte(bs, 1);
    CodeIs(h);
    Stands(bs, 2, h.blockCount, 2, s);
    Stands(bs, 4, h.blockSize, 4, u);
    Stands(bs, 8, h.uncompressedLen, 4, p);
    assert p + [] == p;
    Stands(bs, 12, h.payloadCrc, 4, []);
  }

  lemma CodeIs(h: ChunkFormat.ChunkHeader)
    ensures CodecCode(h.codec) < 4 && CODECS[CodecCode(h.codec)] == h.codec
    ensures FilterCode(h.filter) < 4 && FILTERS[FilterCode(h.filter)] == h.filter
  {
  }

  /** Any bytes: too short, an unknown codec, an unknown filter, or the fields that stand there. */
  lemma ChunkFixedParse(buf: Bytes)
    requires |buf| >= 16
    ensures var r := ChunkFormat.ParseFixed(buf);
            && (buf[0] >= 4 ==> r == Failure(InvalidCodec(buf[0])))
            && (buf[0] < 4 && buf[1] >= 4 ==> r == Failure(InvalidFilter(buf[1])))
            && (buf[0] < 4 && buf[1] < 4 ==> r.Success? && ChunkFront(buf, r.value))
  {
    hide Digits, ReadU8, ReadU16, ReadU32, CodecFromU8, FilterFromU8;
    OneByte(buf, 0);
    OneByte(buf, 1);
    Codes(buf[0]);
    Codes(buf[1]);
    Numbers(buf, 2);
    Numbers(buf, 4);
    Numbers(buf, 8);
    Numbers(buf, 12);
  }

  /** The table needs four bytes an entry, and entry k is the number at 16 + 4k. */
  lemma ChunkParse(buf: Bytes)
    ensures var r := ChunkFormat.Parse(buf);
            && (|buf| < 16 ==> r == Failure(BufferTooSmall(16, |buf|)))
            && (|buf| >= 16 && ChunkFormat.ParseFixed(buf).Failure? ==> r == Failure(ChunkFormat.ParseFixed(buf).error))
            && (|buf| >= 16 && ChunkFormat.ParseFixed(buf).Success? ==>
                  && var h := ChunkFormat.ParseFixed(buf).value;
                  && (|buf| < 16 + 4 * h.blockCount ==> r == Failure(BufferTooSmall(16 + 4 * h.blockCount, |buf|)))
                  && (|buf| >= 16 + 4 * h.blockCount ==>
                        && r.Success? && r.value.0 == h && |r.value.1| == h.blockCount
                        && forall k :: 0 <= k < h.blockCount ==> Digits(buf, 16 + 4 * k, r.value.1[k], 4)))
  {
    hide Digits, ChunkFormat.ParseFixed, ReadU32s;
    if |buf| >= 16 && ChunkFormat.ParseFixed(buf).Success? {
      var h := ChunkFormat.ParseFixed(buf).value;
      if |buf| >= 16 + 4 * h.blockCount {
        TableParse(buf, 16, h.blockCount);
      }
    }
  }

  lemma {:induction false} TableParse(buf: Bytes, pos: nat, n: nat)
    requires pos + 4 * n <= |buf|
    ensures ReadU32s(buf, pos, n).Success?
    ensures forall k :: 0 <= k < n ==> Digits(buf, pos + 4 * k, ReadU32s(buf, pos, n).value[k], 4)
  {
    hide Digits, ReadU32;
    if n > 0 {
      TableParse(buf, pos, n - 1);
      Numbers(buf, pos + 4 * (n - 1));
    }
  }

  // ---------- attributes ----------

  /** Name length, name, type code, value length, value. */
  lemma AttrLayout(name: Bytes, v: AttrValue)
    requires |name| <= 255 && |ValueBytes(v)| <= MAX_ATTR_VALUE_SIZE
    ensures var (bs, k, n) := (EncodeOne(name, v), |name|, |ValueBytes(v)|);
            && |bs| == 4 + k + n && bs[0] as nat == k && bs[1..1 + k] == name && bs[1 + k] == TypeCode(v)
            && Digits(bs, 2 + k, n, 2) && bs[4 + k..] == ValueBytes(v)
  {
    hide Digits, ReadU8, ReadU16, Encode, EncodeOne, ValueBytes, TypeCode;
    var bs, k, n := EncodeOne(name, v), |name|, |ValueBytes(v)|;
    AtWhole(bs);
    OneFields(bs, 0, name, v);
    OneByte(bs, 0);
    OneByte(bs, 1 + k);
    Numbers(bs, 2 + k);
    assert bs[4 + k..] == bs[4 + k..4 + k + n];
  }

  /** A name over 255 bytes is written as its first 255. */
  lemma CutName(name: Bytes, v: AttrValue)
    requires |name| > 255
    ensures EncodeOne(name, v) == EncodeOne(name[..255], v)
  {
  }

  /** Types 0 to 4: text, a 64-bit number in two's complement, a 64-bit pattern, one byte, raw bytes. */
  lemma ValueLayout(v: AttrValue)
    ensures v.StringValue? ==> TypeCode(v) == 0 && ValueBytes(v) == v.text
    ensures v.Int64Value? ==>
              TypeCode(v) == 1 && Digits(ValueBytes(v), 0, if v.num < 0 then v.num + 0x1_0000_0000_0000_0000 else v.num, 8)
    ensures v.Float64Value? ==> TypeCode(v) == 2 && Digits(ValueBytes(v), 0, v.bits, 8)
    ensures v.BoolValue? ==> TypeCode(v) == 3 && ValueBytes(v) == [if v.flag then 1 else 0]
    ensures v.BytesValue? ==> TypeCode(v) == 4 && ValueBytes(v) == v.raw
  {
    hide Digits, Encode;
    match v {
      case Int64Value(num) => EncodeDigits(num % U64_LIMIT, 8);
        assert num % U64_LIMIT == if num < 0 then num + 0x1_0000_0000_0000_0000 else num;
      case Float64Value(bits) => EncodeDigits(bits, 8);
      case _ =>
    }
  }

  /** A record that is all there: what is refused, in order, and what is read. */
  lemma AttrParse(buf: Bytes, pos: nat, k: nat, n: u16)
    requires pos + 4 + k <= |buf| && buf[pos] as nat == k && Digits(buf, pos + 2 + k, n, 2)
    ensures var (r, name) := (ParseOne(buf, pos), buf[pos + 1..pos + 1 + k]);
            && (!Text(name) ==> r == Failure(CorruptArchive))
            && (Text(name) && buf[pos + 1 + k] > 4 ==> r == Failure(InvalidAttrType(buf[pos + 1 + k])))
            && (Text(name) && buf[pos + 1 + k] <= 4 && n > 4096 ==> r == Failure(AttrValueTooLarge(n)))
            && (Text(name) && buf[pos + 1 + k] <= 4 && n <= 4096 && pos + 4 + k + n > |buf| ==> r == Failure(TpxError.Io))
            && (Text(name) && buf[pos + 1 + k] <= 4 && n <= 4096 && pos + 4 + k + n <= |buf| ==>
                  && var v := ParseValue(buf[pos + 1 + k], buf[pos + 4 + k..pos + 4 + k + n]);
                  && (v.Failure? ==> r == Failure(v.error))
                  && (v.Success? ==> r == Success((name, v.value, pos + 4 + k + n))))
  {
    hide ReadU8, ReadU16, ParseValue, Text, Utf8.Valid, Digits;
    OneByte(buf, pos);
    OneByte(buf, pos + 1 + k);
    Numbers(buf, pos + 2 + k);
    SameNumber(buf, pos + 2 + k, n, ReadU16(buf, pos + 2 + k).value, 2);
    ValidIsText(buf[pos + 1..pos + 1 + k]);
  }

  /** Digits determine the number. */
  lemma SameNumber(buf: Bytes, pos: nat, n: nat, m: nat, width: nat)
    requires Digits(buf, pos, n, width) && Digits(buf, pos, m, width) && n < Pow256(width) && m < Pow256(width)
    ensures n == m
  {
    hide Pow256, Encode;
    EncodeDigits(n, width);
    EncodeDigits(m, width);
    forall i | 0 <= i < width ensures Encode(n, width)[i] == Encode(m, width)[i] {
      assert Encode(n, width)[0 + i] as nat == n / Pow256(i) % 256 == buf[pos + i] as nat;
      assert Encode(m, width)[0 + i] as nat == m / Pow256(i) % 256 == buf[pos + i] as nat;
    }
    assert Encode(n, width) == Encode(m, width);
    DecodeEncode(n, width);
    DecodeEncode(m, width);
    SmallMod(n, Pow256(width));
    SmallMod(m, Pow256(width));
  }

  lemma SmallMod(n: nat, p: nat)
    requires n < p
    ensures n % p == n
  {
  }

  /** Values: text, eight bytes in two's complement, eight bytes, one byte, or anything. */
  lemma ValueParse(code: u8, bs: Bytes)
    ensures var r := ParseValue(code, bs);
            && (code == 0 ==> r == if Text(bs) then Success(StringValue(bs)) else Failure(CorruptArchive))
            && (code in {1, 2} && |bs| != 8 ==> r == Failure(CorruptArchive))
            && (code == 1 && |bs| == 8 ==>
                  r.Success? && r.value.Int64Value?
                  && Digits(bs, 0, if r.value.num < 0 then r.value.num + 0x1_0000_0000_0000_0000 else r.value.num, 8))
            && (code == 2 && |bs| == 8 ==> r.Success? && r.value.Float64Value? && Digits(bs, 0, r.value.bits, 8))
            && (code == 3 ==> r == if |bs| != 1 then Failure(CorruptArchive) else Success(BoolValue(bs[0] != 0)))
            && (code == 4 ==> r == Success(BytesValue(bs)))
            && (code > 4 ==> r == Failure(InvalidAttrType(code)))
  {
    hide Digits, ReadU64, Text, Utf8.Valid;
    Numbers(bs, 0);
    ValidIsText(bs);
  }

  // ---------- table entries ----------

  /** Shard, offset and length of a reference. */
  lemma RefLayout(r: ChunkRef)
    ensures var bs := EncodeRef(r);
            |bs| == 14 && Digits(bs, 0, r.shardId, 2) && Digits(bs, 2, r.chunkOffset, 8) && Digits(bs, 10, r.chunkLen, 4)
  {
    hide At, Encode, Digits;
    var bs := EncodeRef(r);
    AtWhole(bs);
    Stands(bs, 0, r.shardId, 2, Encode(r.chunkOffset, 8) + Encode(r.chunkLen, 4));
    assert Encode(r.chunkLen, 4) + [] == Encode(r.chunkLen, 4);
    Stands(bs, 2, r.chunkOffset, 8, Encode(r.chunkLen, 4) + []);
    Stands(bs, 10, r.chunkLen, 4, []);
  }

  /** Dtype code, rank and dimensions. */
  lemma TypeLayout(bs: Bytes, pos: nat, e: TocEntry)
    requires At(bs, pos, EncodeType(e)) && |e.shape| < 0x100
    ensures pos + 2 + 4 * |e.shape| <= |bs| && bs[pos] < 13 && DTYPES[bs[pos]] == e.dtype && bs[pos + 1] as nat == |e.shape|
    ensures bs[pos + 2..pos + 2 + 4 * |e.shape|] == EncodeU32s(e.shape)
  {
    hide At, Encode, EncodeU32s, DTypeCode, ReadU8;
    Field(bs, pos, DTypeCode(e.dtype) as nat, 1, Encode(|e.shape|, 1) + EncodeU32s(e.shape));
    DTypeIs(e.dtype);
    Field(bs, pos + 1, |e.shape|, 1, EncodeU32s(e.shape));
    Found(bs, pos + 2, EncodeU32s(e.shape));
    OneByte(bs, pos);
    OneByte(bs, pos + 1);
  }

  /** Length of the attribute block and the block, number of references and the references, tombstone. */
  lemma TailLayout(bs: Bytes, pos: nat, e: TocEntry)
    requires At(bs, pos, EncodeTail(e))
    ensures var a, n := |AttrBlock(e)|, 14 * |e.chunkRefs|;
            && pos + 7 + a + n <= |bs|
            && Digits(bs, pos, a, 4) && bs[pos + 4..pos + 4 + a] == AttrBlock(e)
            && Digits(bs, pos + 4 + a, |e.chunkRefs|, 2)
            && bs[pos + 6 + a..pos + 6 + a + n] == EncodeRefs(e.chunkRefs) && bs[pos + 6 + a + n] == e.tombstone
  {
    hide At, Encode, Digits, AttrBlock, EncodeRefs, ReadU8;
    var block, refs, t := AttrBlock(e), EncodeRefs(e.chunkRefs), Encode(e.tombstone as nat, 1);
    var a := |block|;
    Stands(bs, pos, a, 4, block + (Encode(|e.chunkRefs|, 2) + (refs + t)));
    AtSplit(bs, pos + 4, block, Encode(|e.chunkRefs|, 2) + (refs + t));
    Found(bs, pos + 4, block);
    Stands(bs, pos + 4 + a, |e.chunkRefs|, 2, refs + t);
    AtSplit(bs, pos + 6 + a, refs, t);
    Found(bs, pos + 6 + a, refs);
    assert t + [] == t;
    Field(bs, pos + 6 + a + |refs|, e.tombstone as nat, 1, []);
    OneByte(bs, pos + 6 + a + |refs|);
  }

  /** An entry: key hash, key length and key, then type and tail, and nothing else. */
  lemma EntryLayout(e: TocEntry)
    requires Fits(e)
    ensures var bs, k := EncodeEntry(e), |e.key|;
            && Digits(bs, 0, e.keyHash, 8) && Digits(bs, 8, k, 2) && 10 + k <= |bs| && bs[10..10 + k] == e.key
            && At(bs, 10 + k, EncodeType(e)) && At(bs, 12 + k + 4 * |e.shape|, EncodeTail(e))
            && |bs| == 19 + k + 4 * |e.shape| + |AttrBlock(e)| + 14 * |e.chunkRefs|
  {
    hide At, Encode, Digits, EncodeType, EncodeTail, AttrBlock, EncodeRefs;
    var bs, k, kind, tail := EncodeEntry(e), |e.key|, EncodeType(e), EncodeTail(e);
    AtWhole(bs);
    Stands(bs, 0, e.keyHash, 8, Encode(k, 2) + (e.key + (kind + tail)));
    Stands(bs, 8, k, 2, e.key + (kind + tail));
    AtSplit(bs, 10, e.key, kind + tail);
    AtSplit(bs, 10 + k, kind, tail);
    Found(bs, 10, e.key);
    TailSize(e);
  }

  lemma TailSize(e: TocEntry)
    ensures |EncodeTail(e)| == 7 + |AttrBlock(e)| + 14 * |e.chunkRefs|
  {
    hide AttrBlock;
  }

  lemma DTypeIs(d: DTypeId)
    ensures DTypeCode(d) < 13 && DTYPES[DTypeCode(d)] == d
  {
  }

  /** Dimension k of a shape. */
  lemma {:induction false} ShapeLayout(xs: seq<u32>, k: nat)
    requires k < |xs|
    ensures Digits(EncodeU32s(xs), 4 * k, xs[k], 4)
  {
    hide Digits;
    var n := |xs| - 1;
    var bs, front := EncodeU32s(xs), EncodeU32s(xs[..n]);
    if k == n {
      AtWhole(bs);
      assert bs == front + Encode(xs[n], 4);
      AtSplit(bs, 0, front, Encode(xs[n], 4));
      DigitsAt(bs, 4 * n, xs[n], 4);
    } else {
      ShapeLayout(xs[..n], k);
      DigitsFront(front, Encode(xs[n], 4), 4 * k, xs[k], 4);
    }
  }

  lemma DigitsFront(a: Bytes, b: Bytes, pos: nat, n: nat, width: nat)
    requires Digits(a, pos, n, width)
    ensures Digits(a + b, pos, n, width)
  {
    forall i | 0 <= i < width ensures (a + b)[pos + i] as nat == n / Pow256(i) % 256 {
      assert (a + b)[pos + i] == a[pos + i];
    }
  }

  lemma {:induction false} RefsLayout(rs: seq<ChunkRef>, c: nat)
    requires c < |rs|
    ensures At(EncodeRefs(rs), 14 * c, EncodeRef(rs[c]))
  {
    hide At, EncodeRef;
    var n := |rs| - 1;
    AtWhole(EncodeRefs(rs));
    AtSplit(EncodeRefs(rs), 0, EncodeRefs(rs[..n]), EncodeRef(rs[n]));
    if c < n {
      RefsLayout(rs[..n], c);
      AtFront(EncodeRefs(rs[..n]), EncodeRef(rs[n]), 14 * c, EncodeRef(rs[c]));
    }
  }

  lemma AtFront(a: Bytes, b: Bytes, pos: nat, piece: Bytes)
    requires At(a, pos, piece)
    ensures At(a + b, pos, piece)
  {
    assert (a + b)[pos..pos + |piece|] == a[pos..pos + |piece|];
  }

  /** A table: the entry count, and the entries one after the other. */
  lemma TocLayout(es: seq<TocEntry>, i: nat)
    requires i < |es|
    ensures Digits(EncodeToc(es), 0, |es|, 4)
    ensures At(EncodeToc(es), 4 + |EncodeEntries(es[..i])|, EncodeEntry(es[i]))
  {
    hide At, EncodeEntry, Encode, EncodeEntries, Digits;
    var bs := EncodeToc(es);
    AtWhole(bs);
    Stands(bs, 0, |es|, 4, EncodeEntries(es));
    EntriesLayout(bs, 4, es, i);
  }

  lemma {:induction false} EntriesLayout(bs: Bytes, pos: nat, es: seq<TocEntry>, i: nat)
    requires i < |es| && At(bs, pos, EncodeEntries(es))
    ensures At(bs, pos + |EncodeEntries(es[..i])|, EncodeEntry(es[i]))
  {
    hide At, EncodeEntry;
    var n := |es| - 1;
    AtSplit(bs, pos, EncodeEntries(es[..n]), EncodeEntry(es[n]));
    if i < n {
      EntriesLayout(bs, pos, es[..n], i);
      assert es[..n][..i] == es[..i];
    }
  }

  /** An entry whose key is no text, or whose dtype is unknown, makes the table unreadable. */
  lemma EntryRefused(buf: Bytes, pos: nat, k: u16)
    requires pos + 12 + k <= |buf| && Digits(buf, pos + 8, k, 2)
    ensures var key := buf[pos + 10..pos + 10 + k];
            && (!Text(key) ==> ReadEntry(buf, pos) == Failure(CorruptArchive))
            && (Text(key) && buf[pos + 10 + k] >= 13 ==> ReadEntry(buf, pos) == Failure(InvalidDType(buf[pos + 10 + k])))
  {
    hide ReadU8, ReadU16, ReadU64, ReadU32s, ReadTail, Text, Utf8.Valid, Digits, DTypeFromU8;
    Numbers(buf, pos);
    Numbers(buf, pos + 8);
    SameNumber(buf, pos + 8, k, ReadU16(buf, pos + 8).value, 2);
    Widths();
    OneByte(buf, pos + 10 + k);
    Codes(buf[pos + 10 + k]);
    ValidIsText(buf[pos + 10..pos + 10 + k]);
  }
}

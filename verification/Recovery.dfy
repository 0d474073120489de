// The file header, the checkpoint block, and finding the last committed table again
// (crates/tpx-core/src/header.rs, crates/tpx-shard/src/checkpoint.rs, `ShardedEngine::open`).

module HeaderFormat {
  import opened Wrappers
  import opened Types
  import opened LittleEndian

  /** The 48 header bytes that `FileHeader::new` writes. */
  function HeaderBytes(shardCount: u16, chunkAlign: u32): (bs: Bytes)
    ensures |bs| == HEADER_SIZE
  {
    MAGIC + (Encode(0x0100, 2) + (Encode(0x02, 2) + (Encode(chunkAlign, 4) + (Encode(65536, 4)
      + (Encode(shardCount, 2) + Zeros(30))))))
  }

  /** The alignment and shard count of a header with a known magic and a major version up to 1. */
  function ParseHeader(buf: Bytes): Result<(u32, u16), TpxError> {
    if |buf| < HEADER_SIZE then Failure(BufferTooSmall(HEADER_SIZE, |buf|))
    else
      var magic :- Take(buf, 0, 4);
      var version :- ReadU16(buf, 4);
      var chunkAlign :- ReadU32(buf, 8);
      var shardCount :- ReadU16(buf, 16);
      if magic != MAGIC then Failure(InvalidMagic)
      else if version / 256 > 1 then Failure(UnsupportedVersion(version))
      else Success((chunkAlign, shardCount))
  }

  lemma HeaderRoundTrip(buf: Bytes, shardCount: u16, chunkAlign: u32)
    requires At(buf, 0, HeaderBytes(shardCount, chunkAlign))
    ensures ParseHeader(buf) == Success((chunkAlign, shardCount))
    ensures ParseHeader(buf[..HEADER_SIZE]) == Success((chunkAlign, shardCount))
  {
    HeaderFields(buf, shardCount, chunkAlign);
    assert At(buf[..HEADER_SIZE], 0, HeaderBytes(shardCount, chunkAlign));
    HeaderFields(buf[..HEADER_SIZE], shardCount, chunkAlign);
  }

  lemma HeaderFields(buf: Bytes, shardCount: u16, chunkAlign: u32)
    requires At(buf, 0, HeaderBytes(shardCount, chunkAlign))
    ensures ParseHeader(buf) == Success((chunkAlign, shardCount))
  {
    hide At, Encode, ReadU16, ReadU32;
    var z := Encode(shardCount, 2) + Zeros(30);
    var y := Encode(chunkAlign, 4) + (Encode(65536, 4) + z);
    AtBound(buf, 0, HeaderBytes(shardCount, chunkAlign));
    AtSplit(buf, 0, MAGIC, Encode(0x0100, 2) + (Encode(0x02, 2) + y));
    TakeAt(buf, 0, MAGIC);
    Field(buf, 4, 0x0100, 2, Encode(0x02, 2) + y);
    Field(buf, 6, 0x02, 2, y);
    Field(buf, 8, chunkAlign, 4, Encode(65536, 4) + z);
    Field(buf, 12, 65536, 4, z);
    Field(buf, 16, shardCount, 2, Zeros(30));
  }
}

module Recovery {
  import opened Wrappers
  import opened Types
  import opened LittleEndian
  import opened TocFormat
  import opened HeaderFormat
  import FooterFormat

  /** Zeros between the table and the footer, up to the next 4096-byte boundary. */
  function PadLen(rawLen: nat): (n: nat)
    ensures (rawLen + n) % CHUNK_ALIGN == 0
  {
    var rem := rawLen % CHUNK_ALIGN;
    if rem == 0 then 0 else CHUNK_ALIGN - rem
  }

  /** Table, padding and footer as `execute_checkpoint` appends them in one block. */
  function Block(toc: Bytes, footer: FooterFormat.Footer): Bytes
  {
    (toc + Zeros(PadLen(|toc| + FOOTER_SIZE))) + FooterFormat.Serialize(footer)
  }

  /** Every entry fits its record and the table its 32-bit count. */
  predicate AllFit(es: seq<TocEntry>) {
    |es| < U32_LIMIT && forall e :: e in es ==> Fits(e)
  }

  datatype Recovered = Recovered(chunkAlign: u32, shardCount: u16, entries: seq<TocEntry>, cleanLen: nat)

  /** What `open` reconstructs from the bytes of a file. */
  function Recover(image: Bytes): Result<Recovered, TpxError> {
    if |image| < HEADER_SIZE then Failure(BufferTooSmall(HEADER_SIZE, |image|))
    else
      var header :- ParseHeader(image[..HEADER_SIZE]);
      var found := FooterFormat.Scan(image, |image|, header.0);
      if found.None? then Failure(CorruptArchive)
      else
        FooterFormat.ScanIsLatest(image, |image|, header.0);
        var (footer, footerOffset) := found.value;
        var entries :- ParseToc(image[footer.tocOffset..footerOffset]);
        Success(Recovered(header.0, header.1, entries, footerOffset + FOOTER_SIZE))
  }

  /** The file ends, aligned, in a footer whose table parses to `es`. */
  ghost predicate Committed(file: Bytes, shardCount: u16, es: seq<TocEntry>) {
    && |file| >= HEADER_SIZE && |file| % CHUNK_ALIGN == 0
    && At(file, 0, HeaderBytes(shardCount, CHUNK_ALIGN))
    && var end := |file| - FOOTER_SIZE;
       var f := FooterFormat.Probe(file, end);
       f.Some? && ParseToc(file[f.value.tocOffset..end]) == Success(es)
  }

  /** A torn tail that the backward scan cannot mistake for a later commit. */
  ghost predicate CleanTail(file: Bytes, tail: Bytes)
    requires |file| >= FOOTER_SIZE
  {
    !FooterFormat.FalseFooter(file + tail, CHUNK_ALIGN, |file| - FOOTER_SIZE)
  }

  /** Appending a checkpoint block to an aligned log commits the table exactly when its entries fit. */
  lemma BlockCommits(log: Bytes, shardCount: u16, es: seq<TocEntry>, footer: FooterFormat.Footer)
    requires HEADER_SIZE <= |log| && |log| % CHUNK_ALIGN == 0
    requires At(log, 0, HeaderBytes(shardCount, CHUNK_ALIGN))
    requires forall e :: e in es ==> Typed(e)
    requires footer.tocOffset == |log| && |footer.magicEnd| == 4
    requires footer.magicEnd == MAGIC_END_FINAL || footer.magicEnd == MAGIC_END_CHECKPOINT
    ensures Committed(log + Block(EncodeToc(es), footer), shardCount, es) <==> AllFit(es)
  {
    hide EncodeToc, ParseToc, FooterFormat.Serialize, FooterFormat.Deserialize, HeaderBytes, Typed, Fits;
    var toc := EncodeToc(es);
    TocSize(es);
    var padding := Zeros(PadLen(|toc| + FOOTER_SIZE));
    var bytes := FooterFormat.Serialize(footer);
    var file := log + Block(toc, footer);
    var end := |file| - FOOTER_SIZE;
    assert file == log + (toc + padding) + bytes;
    assert file[end..end + FOOTER_SIZE] == bytes;
    FooterFormat.RoundTrip(footer);
    assert FooterFormat.Probe(file, end) == Some(footer);
    assert file[|log|..end] == toc + padding;
    TypedRoundTrip(es, padding);
    assert file[0..HEADER_SIZE] == log[0..HEADER_SIZE];
  }

  lemma TocSize(es: seq<TocEntry>)
    ensures |EncodeToc(es)| >= 4
  {
  }

  /**
   * Crash recovery: a file that was synced right after a checkpoint, followed by whatever a crash
   * left behind, opens to exactly the committed table with a clean length at the commit, if and
   * only if no probe in the torn tail holds a false footer.
   */
  lemma RecoverCommitted(file: Bytes, tail: Bytes, shardCount: u16, es: seq<TocEntry>)
    requires Committed(file, shardCount, es)
    ensures Recover(file + tail) == Success(Recovered(CHUNK_ALIGN, shardCount, es, |file|))
            <==> CleanTail(file, tail)
  {
    hide FooterFormat.Deserialize, FooterFormat.Scan, ParseToc, HeaderBytes, ParseHeader;
    var image, end := file + tail, |file| - FOOTER_SIZE;
    assert image[0..HEADER_SIZE] == file[0..HEADER_SIZE];
    assert At(image, 0, HeaderBytes(shardCount, CHUNK_ALIGN));
    HeaderRoundTrip(image, shardCount, CHUNK_ALIGN);
    var f := FooterFormat.Probe(file, end).value;
    FooterFormat.MultipleMod(CHUNK_ALIGN, |file|);
    FooterFormat.ScanFindsCommitted(file, tail, f, CHUNK_ALIGN);
    assert image[f.tocOffset..end] == file[f.tocOffset..end];
    FooterFormat.ScanIsLatest(image, |image|, CHUNK_ALIGN);
    assert FooterFormat.Probe(image, end) == Some(f) by {
      assert image[end..end + FOOTER_SIZE] == file[end..end + FOOTER_SIZE];
    }
  }

  /** Finding the commit's own end again is enough to know that the tail was clean. */
  lemma CleanLength(file: Bytes, tail: Bytes, shardCount: u16, es: seq<TocEntry>)
    requires Committed(file, shardCount, es)
    ensures CleanTail(file, tail) <==> Recover(file + tail).Success? && Recover(file + tail).value.cleanLen == |file|
  {
    hide FooterFormat.Deserialize, FooterFormat.Scan, ParseToc, HeaderBytes, ParseHeader, FooterFormat.Probe;
    RecoverCommitted(file, tail, shardCount, es);
    var image := file + tail;
    assert image[0..HEADER_SIZE] == file[0..HEADER_SIZE];
    HeaderRoundTrip(image, shardCount, CHUNK_ALIGN);
    FooterFormat.ScanIsLatest(image, |image|, CHUNK_ALIGN);
  }

  /** A checkpoint block of one page of which only the last 24 bytes have reached the disk. */
  function TornPage(tocOffset: u64, totalChunks: u32, checksum: u64): (page: Bytes)
    ensures |page| == CHUNK_ALIGN
  {
    Zeros(CHUNK_ALIGN - FOOTER_SIZE) + FooterFormat.Serialize(FooterFormat.NewFooter(tocOffset, totalChunks, checksum, true))
  }

  /**
   * A tail that is not clean: a torn checkpoint behind any commit. Its footer is accepted, since the
   * checksum is never checked, and the zeros in front of it parse as a table without entries, so the
   * archive opens empty at a clean length one page too far.
   */
  lemma TornPageEmpties(file: Bytes, shardCount: u16, es: seq<TocEntry>, totalChunks: u32, checksum: u64)
    requires Committed(file, shardCount, es) && |file| < U64_LIMIT
    ensures var page := TornPage(|file|, totalChunks, checksum);
            && !CleanTail(file, page)
            && Recover(file + page) == Success(Recovered(CHUNK_ALIGN, shardCount, [], |file| + CHUNK_ALIGN))
  {
    hide FooterFormat.Deserialize, FooterFormat.Serialize, FooterFormat.ScanDown, HeaderBytes, ParseHeader, FooterFormat.Multiple;
    var page := TornPage(|file|, totalChunks, checksum);
    var footer := FooterFormat.NewFooter(|file|, totalChunks, checksum, true);
    var image := file + page;
    var offset := |image| - FOOTER_SIZE;
    assert image[0..HEADER_SIZE] == file[0..HEADER_SIZE];
    HeaderRoundTrip(image, shardCount, CHUNK_ALIGN);
    assert image[offset..offset + FOOTER_SIZE] == FooterFormat.Serialize(footer);
    FooterFormat.RoundTrip(footer);
    assert FooterFormat.Probe(image, offset) == Some(footer);
    assert image[|file|..offset] == Zeros(CHUNK_ALIGN - FOOTER_SIZE);
    NoEntries(CHUNK_ALIGN - FOOTER_SIZE);
    assert FooterFormat.Scan(image, |image|, CHUNK_ALIGN) == Some((footer, offset));
    assert FooterFormat.IsProbe(|image|, CHUNK_ALIGN, offset);
  }

  lemma NoEntries(n: nat)
    requires n >= 4
    ensures ParseToc(Zeros(n)) == Success([])
  {
    NoValue(4);
    assert Zeros(n)[0..4] == Zeros(4);
    assert ReadU32(Zeros(n), 0) == Success(0);
  }

  lemma {:induction false} NoValue(n: nat)
    ensures Decode(Zeros(n)) == 0
  {
    if n > 0 {
      NoValue(n - 1);
      assert Zeros(n)[1..] == Zeros(n - 1);
    }
  }

  /** A file that was only extended with zeros after its commit has a clean tail. */
  lemma ZeroTail(file: Bytes, shardCount: u16, es: seq<TocEntry>, n: nat)
    requires Committed(file, shardCount, es)
    ensures CleanTail(file, Zeros(n))
  {
    hide FooterFormat.Multiple, HeaderBytes, ParseToc, FooterFormat.Probe, At;
    var image, end := file + Zeros(n), |file| - FOOTER_SIZE;
    forall p: nat | p > end && FooterFormat.IsProbe(|image|, CHUNK_ALIGN, p) ensures FooterFormat.Probe(image, p).None? {
      ZeroProbe(file, n, p);
    }
  }

  /** The byte before a probe's end is never zero where a footer is accepted. */
  lemma ProbeEnd(data: Bytes, p: nat)
    requires FooterFormat.Probe(data, p).Some?
    ensures p + FOOTER_SIZE <= |data| && data[p + 23] in {0x43, 0x54} && data[p + 20] == 0x31
  {
    hide ReadU64, ReadU32;
    var buf := data[p..p + FOOTER_SIZE];
    assert buf[|buf| - FOOTER_SIZE..] == buf;
    assert buf[20..24][3] == data[p + 23] && buf[20..24][0] == data[p + 20];
  }

  lemma ZeroProbe(file: Bytes, n: nat, p: nat)
    requires |file| >= FOOTER_SIZE && |file| - FOOTER_SIZE < p && p + FOOTER_SIZE <= |file| + n
    ensures FooterFormat.Probe(file + Zeros(n), p).None?
  {
    hide FooterFormat.Probe;
    var image := file + Zeros(n);
    assert image[p + 23] == 0;
    if FooterFormat.Probe(image, p).Some? {
      ProbeEnd(image, p);
    }
  }
}

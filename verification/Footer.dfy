// The 24-byte archive footer and the backward scan that finds the most recent one
// (crates/tpx-core/src/footer.rs).

module FooterFormat {
  import opened Wrappers
  import opened Types
  import opened Arithmetic
  import opened LittleEndian

  datatype Footer = Footer(tocOffset: u64, totalChunks: u32, checksum: u64, magicEnd: Bytes)

  function NewFooter(tocOffset: u64, totalChunks: u32, checksum: u64, isCheckpoint: bool): Footer {
    Footer(tocOffset, totalChunks, checksum,
           if isCheckpoint then MAGIC_END_CHECKPOINT else MAGIC_END_FINAL)
  }

  function Serialize(f: Footer): (bs: Bytes)
    ensures |f.magicEnd| == 4 ==> |bs| == FOOTER_SIZE
  {
    Encode(f.tocOffset, 8) + (Encode(f.totalChunks, 4) + (Encode(f.checksum, 8) + f.magicEnd))
  }

  /** Reads the last 24 bytes of `buf`; only the end magic is checked, never the checksum. */
  function Deserialize(buf: Bytes): Result<Footer, TpxError> {
    if |buf| < FOOTER_SIZE then
      Failure(BufferTooSmall(FOOTER_SIZE, |buf|))
    else
      var slice := buf[|buf| - FOOTER_SIZE..];
      var tocOffset :- ReadU64(slice, 0);
      var totalChunks :- ReadU32(slice, 8);
      var checksum :- ReadU64(slice, 12);
      var magicEnd :- Take(slice, 20, 4);
      if magicEnd != MAGIC_END_FINAL && magicEnd != MAGIC_END_CHECKPOINT then
        Failure(InvalidEndMagic)
      else
        Success(Footer(tocOffset, totalChunks, checksum, magicEnd))
  }

  /** A footer is read back exactly when its magic is one of the two end markers. */
  lemma RoundTrip(f: Footer)
    requires |f.magicEnd| == 4
    ensures Deserialize(Serialize(f)) == Success(f)
            <==> f.magicEnd == MAGIC_END_FINAL || f.magicEnd == MAGIC_END_CHECKPOINT
  {
    hide Encode, Decode, ReadU64, ReadU32;
    var b, c, m := Encode(f.totalChunks, 4), Encode(f.checksum, 8), f.magicEnd;
    var buf := Serialize(f);
    assert buf[|buf| - FOOTER_SIZE..] == buf;
    Field(buf, 0, f.tocOffset, 8, b + (c + m));
    Field(buf, 8, f.totalChunks, 4, c + m);
    Field(buf, 12, f.checksum, 8, m);
  }

  /** Positional read on a byte slice: the bytes available, at most `n` of them. */
  function ReadAt(data: Bytes, offset: nat, n: nat): Bytes {
    if offset >= |data| then []
    else if offset + n <= |data| then data[offset..offset + n]
    else data[offset..]
  }

  /** What one probe of the scan accepts: a parsable footer that points before itself. */
  function Probe(data: Bytes, offset: nat): Option<Footer> {
    var buf := ReadAt(data, offset, FOOTER_SIZE);
    if |buf| == FOOTER_SIZE && Deserialize(buf).Success? && Deserialize(buf).value.tocOffset < offset
    then Some(Deserialize(buf).value)
    else None
  }

  function ScanAlign(chunkAlign: u32): (align: nat)
    ensures align >= 512
  {
    if chunkAlign > 512 then chunkAlign else 512
  }

  /** `x` is a multiple of `align`, by repeated subtraction. */
  predicate Multiple(align: nat, x: nat)
    requires align > 0
  {
    if x < align then x == 0 else Multiple(align, x - align)
  }

  lemma {:induction false} MultipleGap(align: nat, x: nat, y: nat)
    requires align > 0 && Multiple(align, x) && Multiple(align, y) && x < y
    ensures x + align <= y
  {
    if x >= align {
      MultipleGap(align, x - align, y - align);
    }
  }

  lemma {:induction false} MultipleTimes(align: nat, q: nat)
    requires align > 0
    ensures Multiple(align, align * q)
  {
    if q > 0 {
      assert align * q == align * (q - 1) + align;
      MultipleTimes(align, q - 1);
    }
  }

  lemma {:induction false} MultipleMod(align: nat, x: nat)
    requires align > 0
    ensures Multiple(align, x) <==> x % align == 0
  {
    if x >= align {
      MultipleMod(align, x - align);
      var q, r := (x - align) / align, (x - align) % align;
      assert x == align * (q + 1) + r;
      DivModUnique(x, align, q + 1, r);
    } else {
      DivModUnique(x, align, 0, x);
    }
  }

  function RoundDown(align: nat, n: nat): (m: nat)
    requires align > 0
    ensures Multiple(align, m) && m <= n < m + align
  {
    MultipleTimes(align, n / align);
    assert n == align * (n / align) + n % align;
    align * (n / align)
  }

  /** The offsets the scan looks at: 24 bytes before the end, and before every aligned position. */
  ghost predicate IsProbe(fileLen: nat, align: nat, offset: nat)
    requires align > 0
  {
    || offset + FOOTER_SIZE == fileLen
    || (offset + FOOTER_SIZE <= fileLen && Multiple(align, offset + FOOTER_SIZE))
  }

  /** The probes before `current`, `current - align`, ..., first hit wins. */
  function ScanDown(data: Bytes, align: nat, current: nat): Option<(Footer, nat)>
    requires align >= 512
  {
    if current < FOOTER_SIZE then None
    else
      var offset := current - FOOTER_SIZE;
      var hit := Probe(data, offset);
      if hit.Some? then Some((hit.value, offset))
      else if current <= align then None
      else ScanDown(data, align, current - align)
  }

  function Scan(data: Bytes, fileLen: nat, chunkAlign: u32): Option<(Footer, nat)> {
    if fileLen < FOOTER_SIZE then None
    else
      var hit := Probe(data, fileLen - FOOTER_SIZE);
      if hit.Some? then Some((hit.value, fileLen - FOOTER_SIZE))
      else ScanDown(data, ScanAlign(chunkAlign), RoundDown(ScanAlign(chunkAlign), fileLen))
  }

  /** The scan loop as the code runs it, walking `currentOffset` towards the start. */
  method ScanForFooter(data: Bytes, fileLen: nat, chunkAlign: u32) returns (r: Option<(Footer, nat)>)
    ensures r == Scan(data, fileLen, chunkAlign)
  {
    hide Deserialize, Multiple, ReadAt, RoundDown;
    if fileLen < FOOTER_SIZE {
      return None;
    }
    var eofOffset := fileLen - FOOTER_SIZE;
    var buf := ReadAt(data, eofOffset, FOOTER_SIZE);
    if |buf| == FOOTER_SIZE {
      var footer := Deserialize(buf);
      if footer.Success? && footer.value.tocOffset < eofOffset {
        return Some((footer.value, eofOffset));
      }
    }
    var align := ScanAlign(chunkAlign);
    var currentOffset := RoundDown(align, fileLen);
    while currentOffset >= FOOTER_SIZE
      invariant currentOffset >= 0
      invariant Scan(data, fileLen, chunkAlign) == ScanDown(data, align, currentOffset)
    {
      var probeOffset := currentOffset - FOOTER_SIZE;
      buf := ReadAt(data, probeOffset, FOOTER_SIZE);
      if |buf| == FOOTER_SIZE {
        var footer := Deserialize(buf);
        if footer.Success? && footer.value.tocOffset < probeOffset {
          return Some((footer.value, probeOffset));
        }
      }
      if currentOffset <= align {
        break;
      }
      currentOffset := currentOffset - align;
    }
    return None;
  }

  /** Whether a probe at `p`, at or below `current`, is no later than the result `r`. */
  ghost predicate NotAfter(data: Bytes, align: nat, current: nat, r: Option<(Footer, nat)>, p: nat)
    requires align > 0
  {
    p + FOOTER_SIZE <= current && Multiple(align, p + FOOTER_SIZE) && Probe(data, p).Some?
    ==> r.Some? && p <= r.value.1
  }

  lemma {:induction false} ScanDownIsLatest(data: Bytes, align: nat, current: nat)
    requires align >= 512 && Multiple(align, current)
    ensures var r := ScanDown(data, align, current);
            && (r.Some? ==> Probe(data, r.value.1) == Some(r.value.0)
                            && r.value.1 + FOOTER_SIZE <= current
                            && Multiple(align, r.value.1 + FOOTER_SIZE))
            && forall p: nat :: NotAfter(data, align, current, r, p)
  {
    hide Probe;
    if current > align {
      ScanDownIsLatest(data, align, current - align);
    }
    var r := ScanDown(data, align, current);
    forall p: nat ensures NotAfter(data, align, current, r, p) {
      if p + FOOTER_SIZE < current && Multiple(align, p + FOOTER_SIZE) {
        MultipleGap(align, p + FOOTER_SIZE, current);
        MultipleGap(align, 0, p + FOOTER_SIZE);
        assert NotAfter(data, align, current - align, ScanDown(data, align, current - align), p);
      }
    }
  }

  /** The scan returns the highest probe that holds an acceptable footer, and none only if no probe does. */
  lemma ScanIsLatest(data: Bytes, fileLen: nat, chunkAlign: u32)
    ensures var r := Scan(data, fileLen, chunkAlign);
            && (r.Some? ==> Probe(data, r.value.1) == Some(r.value.0)
                            && IsProbe(fileLen, ScanAlign(chunkAlign), r.value.1))
            && forall p: nat :: IsProbe(fileLen, ScanAlign(chunkAlign), p) ==>
                                Probe(data, p).Some? ==> r.Some? && p <= r.value.1
  {
    hide Probe, Multiple, RoundDown;
    var align := ScanAlign(chunkAlign);
    var current := RoundDown(align, fileLen);
    ScanDownIsLatest(data, align, current);
    var r := Scan(data, fileLen, chunkAlign);
    forall p: nat | IsProbe(fileLen, align, p)
      ensures Probe(data, p).Some? ==> r.Some? && p <= r.value.1
    {
      if p + FOOTER_SIZE > current && Multiple(align, p + FOOTER_SIZE) {
        MultipleGap(align, current, p + FOOTER_SIZE);
      }
      assert NotAfter(data, align, current, ScanDown(data, align, current), p);
    }
  }

  /** Some probe strictly above `committed` accepts bytes that are not a committed footer. */
  ghost predicate FalseFooter(image: Bytes, align: nat, committed: nat)
    requires align > 0
  {
    exists p: nat :: p > committed && IsProbe(|image|, align, p) && Probe(image, p).Some?
  }

  /**
   * A file that ends in a committed footer at an aligned end, followed by any torn tail: the scan
   * returns the committed footer if and only if no probe in the tail accepts a false one.
   */
  lemma ScanFindsCommitted(file: Bytes, tail: Bytes, f: Footer, chunkAlign: u32)
    requires |file| >= FOOTER_SIZE && Multiple(ScanAlign(chunkAlign), |file|)
    requires Probe(file, |file| - FOOTER_SIZE) == Some(f)
    ensures Scan(file + tail, |file + tail|, chunkAlign) == Some((f, |file| - FOOTER_SIZE))
            <==> !FalseFooter(file + tail, ScanAlign(chunkAlign), |file| - FOOTER_SIZE)
  {
    hide Deserialize, Multiple, Scan;
    var image, align, p := file + tail, ScanAlign(chunkAlign), |file| - FOOTER_SIZE;
    assert image[p..p + FOOTER_SIZE] == file[p..p + FOOTER_SIZE];
    assert Probe(image, p) == Some(f);
    assert IsProbe(|image|, align, p);
    ScanIsLatest(image, |image|, chunkAlign);
  }
}

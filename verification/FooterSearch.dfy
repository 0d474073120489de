// What a crash leaves to be found, said by bytes and offsets: where a footer stands, which offsets the
// backward scan looks at, and how long a checkpoint block is (crates/tpx-core/src/footer.rs,
// crates/tpx-shard/src/checkpoint.rs).

module FooterSearch {
  import opened Wrappers
  import opened Types
  import opened LittleEndian
  import opened FooterFormat
  import Layout
  import Recovery

  /** At `o` stand the 24 bytes of a footer, with either end magic, whose table lies before it; its checksum may be anything. */
  ghost predicate FooterAt(data: Bytes, o: nat, f: Footer) {
    && o + 24 <= |data| && f.tocOffset < o
    && Digits(data, o, f.tocOffset, 8) && Digits(data, o + 8, f.totalChunks, 4) && Digits(data, o + 12, f.checksum, 8)
    && data[o + 20..o + 24] == f.magicEnd
    && (f.magicEnd == [0x31, 0x58, 0x50, 0x54] || f.magicEnd == [0x31, 0x58, 0x50, 0x43])
  }

  /** The places for a footer: at the very end, or right before a multiple of the alignment, which counts as 512 at least. */
  ghost predicate Place(len: nat, chunkAlign: nat, o: nat) {
    && o + 24 <= len
    && (o + 24 == len || (o + 24) % (if chunkAlign > 512 then chunkAlign else 512) == 0)
  }

  lemma ProbeIs(data: Bytes, o: nat, f: Footer)
    ensures Probe(data, o) == Some(f) <==> FooterAt(data, o, f)
  {
    hide Digits, Deserialize;
    if o + 24 <= |data| {
      var buf := data[o..o + 24];
      Layout.FooterParse(buf);
      var r := Deserialize(buf);
      assert data[o + 20..o + 24] == buf[20..24];
      if r.Success? {
        Moved(data, o, buf, 0, r.value.tocOffset, 8);
        Moved(data, o, buf, 8, r.value.totalChunks, 4);
        Moved(data, o, buf, 12, r.value.checksum, 8);
        if FooterAt(data, o, f) {
          SameFooter(data, o, r.value, f);
        }
      }
    }
  }

  lemma Moved(data: Bytes, o: nat, buf: Bytes, pos: nat, n: nat, width: nat)
    requires o + 24 <= |data| && buf == data[o..o + 24] && Digits(buf, pos, n, width)
    ensures Digits(data, o + pos, n, width)
  {
    forall i | 0 <= i < width ensures data[o + pos + i] as nat == n / Pow256(i) % 256 {
      assert buf[pos + i] == data[o + pos + i];
    }
  }

  lemma SameFooter(data: Bytes, o: nat, f: Footer, g: Footer)
    requires o + 24 <= |data| && data[o + 20..o + 24] == f.magicEnd == g.magicEnd
    requires Digits(data, o, f.tocOffset, 8) && Digits(data, o + 8, f.totalChunks, 4) && Digits(data, o + 12, f.checksum, 8)
    requires Digits(data, o, g.tocOffset, 8) && Digits(data, o + 8, g.totalChunks, 4) && Digits(data, o + 12, g.checksum, 8)
    ensures f == g
  {
    hide Digits, Pow256;
    Widths();
    Layout.SameNumber(data, o, f.tocOffset, g.tocOffset, 8);
    Layout.SameNumber(data, o + 8, f.totalChunks, g.totalChunks, 4);
    Layout.SameNumber(data, o + 12, f.checksum, g.checksum, 8);
  }

  lemma PlaceIs(len: nat, chunkAlign: u32, o: nat)
    ensures IsProbe(len, ScanAlign(chunkAlign), o) <==> Place(len, chunkAlign, o)
  {
    MultipleMod(ScanAlign(chunkAlign), o + 24);
  }

  /** The scan finds a footer at `o` if and only if one stands there and none stands at a later place. */
  lemma ScanIs(data: Bytes, chunkAlign: u32, f: Footer, o: nat)
    ensures Scan(data, |data|, chunkAlign) == Some((f, o))
            <==> && FooterAt(data, o, f) && Place(|data|, chunkAlign, o)
                 && forall p: nat, g :: p > o && Place(|data|, chunkAlign, p) ==> !FooterAt(data, p, g)
  {
    hide Scan, Probe, FooterAt, IsProbe, Place, ScanAlign;
    ScanIsLatest(data, |data|, chunkAlign);
    ProbeIs(data, o, f);
    PlaceIs(|data|, chunkAlign, o);
    var r := Scan(data, |data|, chunkAlign);
    if r == Some((f, o)) {
      forall p: nat, g | p > o && Place(|data|, chunkAlign, p) ensures !FooterAt(data, p, g) {
        ProbeIs(data, p, g);
        PlaceIs(|data|, chunkAlign, p);
      }
    } else if FooterAt(data, o, f) && Place(|data|, chunkAlign, o) {
      var (g, p) := r.value;
      ProbeIs(data, p, g);
      PlaceIs(|data|, chunkAlign, p);
    }
  }

  /** And it finds none exactly when none stands at any place. */
  lemma ScanIsNone(data: Bytes, chunkAlign: u32)
    ensures Scan(data, |data|, chunkAlign) == None
            <==> forall p: nat, g :: Place(|data|, chunkAlign, p) ==> !FooterAt(data, p, g)
  {
    hide Scan, Probe, FooterAt, IsProbe, Place, ScanAlign;
    ScanIsLatest(data, |data|, chunkAlign);
    var r := Scan(data, |data|, chunkAlign);
    if r.Some? {
      ProbeIs(data, r.value.1, r.value.0);
      PlaceIs(|data|, chunkAlign, r.value.1);
    } else {
      forall p: nat, g | Place(|data|, chunkAlign, p) ensures !FooterAt(data, p, g) {
        ProbeIs(data, p, g);
        PlaceIs(|data|, chunkAlign, p);
      }
    }
  }

  /** A tail is clean exactly when no footer stands in it, or across its front, at the end or before a multiple of 4096. */
  lemma CleanTailIs(file: Bytes, tail: Bytes)
    requires |file| >= 24
    ensures Recovery.CleanTail(file, tail)
            <==> forall p: nat, g :: |file| < p + 24 && Place(|file + tail|, 4096, p) ==> !FooterAt(file + tail, p, g)
  {
    hide Probe, FooterAt, IsProbe, Place, ScanAlign;
    var image := file + tail;
    assert ScanAlign(4096) == 4096 by {
      AlignIs(4096);
    }
    if Recovery.CleanTail(file, tail) {
      forall p: nat, g | |file| < p + 24 && Place(|image|, 4096, p) ensures !FooterAt(image, p, g) {
        ProbeIs(image, p, g);
        PlaceIs(|image|, 4096, p);
      }
    } else {
      var p: nat :| p > |file| - 24 && IsProbe(|image|, 4096, p) && Probe(image, p).Some?;
      ProbeIs(image, p, Probe(image, p).value);
      PlaceIs(|image|, 4096, p);
    }
  }

  lemma AlignIs(chunkAlign: u32)
    ensures ScanAlign(chunkAlign) == if chunkAlign > 512 then chunkAlign else 512
  {
  }

  /** A checkpoint block: the table, fewer than 4096 zeros, and the footer at the end of a whole number of pages. */
  lemma BlockLayout(toc: Bytes, f: Footer)
    requires |f.magicEnd| == 4
    ensures var block := Recovery.Block(toc, f);
            && |toc| + 24 <= |block| < |toc| + 24 + 4096 && |block| % 4096 == 0
            && block[..|toc|] == toc && block[|block| - 24..] == Serialize(f)
            && forall i :: |toc| <= i < |block| - 24 ==> block[i] == 0
  {
    hide Serialize;
    var n := Recovery.PadLen(|toc| + 24);
    assert Recovery.Block(toc, f) == (toc + Zeros(n)) + Serialize(f);
  }
}

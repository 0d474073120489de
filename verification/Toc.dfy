// The table of contents: its records on disk, and the in-memory index over them
// (crates/tpx-index/src/toc.rs).

module TocFormat {
  import opened Wrappers
  import opened Types
  import opened LittleEndian
  import opened AttrsFormat
  import opened Utf8Text
  import Utf8

  datatype TocEntry = TocEntry(
    keyHash: u64, key: Bytes, dtype: DTypeId, shape: seq<u32>,
    attrs: AttrMap, chunkRefs: seq<ChunkRef>, tombstone: u8)

  // ---------- chunk references ----------

  function EncodeRef(r: ChunkRef): (bs: Bytes)
    ensures |bs| == 14
  {
    Encode(r.shardId, 2) + (Encode(r.chunkOffset, 8) + Encode(r.chunkLen, 4))
  }

  function ReadRef(buf: Bytes, pos: nat): (r: Result<ChunkRef, TpxError>)
    ensures r.Success? ==> r.value.chunkOffset < U64_LIMIT
  {
    var shardId :- ReadU16(buf, pos);
    var chunkOffset :- ReadU64(buf, pos + 2);
    var chunkLen :- ReadU32(buf, pos + 10);
    Success(ChunkRef(shardId, chunkOffset, chunkLen))
  }

  function EncodeRefs(rs: seq<ChunkRef>): (bs: Bytes)
    ensures |bs| == 14 * |rs|
  {
    if |rs| == 0 then [] else EncodeRefs(rs[..|rs| - 1]) + EncodeRef(rs[|rs| - 1])
  }

  function ReadRefs(buf: Bytes, pos: nat, n: nat): (r: Result<seq<ChunkRef>, TpxError>)
    ensures r.Success? ==> |r.value| == n && forall c :: c in r.value ==> c.chunkOffset < U64_LIMIT
  {
    if n == 0 then Success([])
    else
      var rs :- ReadRefs(buf, pos, n - 1);
      var r :- ReadRef(buf, pos + 14 * (n - 1));
      Success(rs + [r])
  }

  lemma RefRoundTrip(buf: Bytes, pos: nat, r: ChunkRef)
    requires At(buf, pos, EncodeRef(r)) && r.chunkOffset < U64_LIMIT
    ensures ReadRef(buf, pos) == Success(r)
  {
    hide At, Encode, ReadU16, ReadU64, ReadU32;
    Field(buf, pos, r.shardId, 2, Encode(r.chunkOffset, 8) + Encode(r.chunkLen, 4));
    Field(buf, pos + 2, r.chunkOffset, 8, Encode(r.chunkLen, 4));
    assert Encode(r.chunkLen, 4) + [] == Encode(r.chunkLen, 4);
    Field(buf, pos + 10, r.chunkLen, 4, []);
  }

  lemma {:induction false} RefsRoundTrip(buf: Bytes, pos: nat, rs: seq<ChunkRef>)
    requires At(buf, pos, EncodeRefs(rs))
    requires forall c :: c in rs ==> c.chunkOffset < U64_LIMIT
    ensures ReadRefs(buf, pos, |rs|) == Success(rs)
  {
    hide At, EncodeRef, ReadRef;
    if |rs| > 0 {
      var init, last := rs[..|rs| - 1], rs[|rs| - 1];
      AtSplit(buf, pos, EncodeRefs(init), EncodeRef(last));
      RefsRoundTrip(buf, pos, init);
      RefRoundTrip(buf, pos + 14 * |init|, last);
      assert init + [last] == rs;
    }
  }

  // ---------- entries ----------

  /** The attributes `set` accepts when an entry's list is rebuilt for writing. */
  function Kept(m: AttrMap): AttrMap {
    map k | k in m && |ValueBytes(m[k])| <= MAX_ATTR_VALUE_SIZE :: m[k]
  }

  function AttrBlock(e: TocEntry): Bytes {
    EncodeMap(Kept(e.attrs))
  }

  function EncodeTail(e: TocEntry): Bytes {
    Encode(|AttrBlock(e)|, 4) + (AttrBlock(e)
      + (Encode(|e.chunkRefs|, 2) + (EncodeRefs(e.chunkRefs) + Encode(e.tombstone as nat, 1))))
  }

  function EncodeType(e: TocEntry): (bs: Bytes)
    ensures |bs| == 2 + 4 * |e.shape|
  {
    Encode(DTypeCode(e.dtype) as nat, 1) + (Encode(|e.shape|, 1) + EncodeU32s(e.shape))
  }

  function EncodeEntry(e: TocEntry): Bytes {
    Encode(e.keyHash, 8) + (Encode(|e.key|, 2) + (e.key + (EncodeType(e) + EncodeTail(e))))
  }

  function EncodeEntries(es: seq<TocEntry>): Bytes {
    if |es| == 0 then [] else EncodeEntries(es[..|es| - 1]) + EncodeEntry(es[|es| - 1])
  }

  function EncodeToc(es: seq<TocEntry>): Bytes {
    Encode(|es|, 4) + EncodeEntries(es)
  }

  function ReadType(buf: Bytes, pos: nat): (r: Result<(DTypeId, seq<u32>), TpxError>)
    ensures r.Success? ==> |r.value.1| < 0x100
  {
    var d :- ReadU8(buf, pos);
    var dtype :- DTypeFromU8(d);
    var ndim :- ReadU8(buf, pos + 1);
    var shape :- ReadU32s(buf, pos + 2, ndim as nat);
    Success((dtype, shape))
  }

  /** The fields after the shape: attributes, references, tombstone, and the next position. */
  function ReadTail(buf: Bytes, pos: nat): (r: Result<(AttrMap, seq<ChunkRef>, u8, nat), TpxError>)
    ensures r.Success? ==> r.value.3 >= pos && |r.value.1| < 0x1_0000
  {
    var attrsLen :- ReadU32(buf, pos);
    var block :- Take(buf, pos + 4, attrsLen);
    var attrs :- ParseFrom(block, 0, map[]);
    var countPos := pos + 4 + attrsLen;
    var count :- ReadU16(buf, countPos);
    var refs :- ReadRefs(buf, countPos + 2, count);
    var tombstone :- ReadU8(buf, countPos + 2 + 14 * count);
    Success((attrs, refs, tombstone, countPos + 3 + 14 * count))
  }

  function ReadEntry(buf: Bytes, pos: nat): Result<(TocEntry, nat), TpxError> {
    var keyHash :- ReadU64(buf, pos);
    var keyLen :- ReadU16(buf, pos + 8);
    var key :- Take(buf, pos + 10, keyLen);
    if !Utf8.Valid(key) then Failure(CorruptArchive)
    else
      var typed :- ReadType(buf, pos + 10 + keyLen);
      var tail :- ReadTail(buf, pos + 12 + keyLen + 4 * |typed.1|);
      Success((TocEntry(keyHash, key, typed.0, typed.1, tail.0, tail.1, tail.2), tail.3))
  }

  function ReadEntries(buf: Bytes, pos: nat, n: nat): (r: Result<(seq<TocEntry>, nat), TpxError>)
    ensures r.Success? ==> |r.value.0| == n
  {
    if n == 0 then Success(([], pos))
    else
      var es :- ReadEntries(buf, pos, n - 1);
      var e :- ReadEntry(buf, es.1);
      Success((es.0 + [e.0], e.1))
  }

  function ParseToc(buf: Bytes): Result<seq<TocEntry>, TpxError> {
    var count :- ReadU32(buf, 0);
    var es :- ReadEntries(buf, 4, count);
    Success(es.0)
  }

  /** What the field types of an entry guarantee before anything is written. */
  ghost predicate Typed(e: TocEntry) {
    Utf8.Valid(e.key) && AllStorable(e.attrs)
  }

  /** The entry fits its on-disk field widths. */
  predicate Fits(e: TocEntry) {
    && |e.key| < 0x1_0000
    && |e.shape| < 0x100
    && |e.chunkRefs| < 0x1_0000
    && (forall c :: c in e.chunkRefs ==> c.chunkOffset < U64_LIMIT)
    && (forall k :: k in e.attrs ==> |k| <= 255)
    && |EncodeMap(e.attrs)| < U32_LIMIT
  }

  lemma RefsTailRoundTrip(buf: Bytes, pos: nat, e: TocEntry)
    requires Fits(e)
    requires At(buf, pos, Encode(|e.chunkRefs|, 2) + (EncodeRefs(e.chunkRefs) + Encode(e.tombstone as nat, 1)))
    ensures ReadU16(buf, pos) == Success(|e.chunkRefs|)
    ensures ReadRefs(buf, pos + 2, |e.chunkRefs|) == Success(e.chunkRefs)
    ensures ReadU8(buf, pos + 2 + 14 * |e.chunkRefs|) == Success(e.tombstone)
  {
    hide At, Encode, ReadU8, ReadU16, EncodeRefs, ReadRefs;
    var refs, t := EncodeRefs(e.chunkRefs), Encode(e.tombstone as nat, 1);
    Field(buf, pos, |e.chunkRefs|, 2, refs + t);
    AtSplit(buf, pos + 2, refs, t);
    RefsRoundTrip(buf, pos + 2, e.chunkRefs);
    assert t + [] == t;
    Field(buf, pos + 2 + |refs|, e.tombstone as nat, 1, []);
  }

  lemma TailRoundTrip(buf: Bytes, pos: nat, e: TocEntry)
    requires At(buf, pos, EncodeTail(e)) && Typed(e) && Fits(e)
    ensures ReadTail(buf, pos) == Success((e.attrs, e.chunkRefs, e.tombstone, pos + |EncodeTail(e)|))
  {
    hide At, Encode, ReadU8, ReadU16, ReadU32, EncodeMap, ParseFrom, EncodeRefs, ReadRefs, AllStorable;
    KeptAll(e.attrs);
    var block := AttrBlock(e);
    var rest := Encode(|e.chunkRefs|, 2) + (EncodeRefs(e.chunkRefs) + Encode(e.tombstone as nat, 1));
    Field(buf, pos, |block|, 4, block + rest);
    AtSplit(buf, pos + 4, block, rest);
    TakeAt(buf, pos + 4, block);
    RoundTrip(e.attrs);
    RefsTailRoundTrip(buf, pos + 4 + |block|, e);
  }

  lemma KeptAll(m: AttrMap)
    requires AllStorable(m)
    ensures Kept(m) == m
  {
  }

  lemma TypeRoundTrip(buf: Bytes, pos: nat, e: TocEntry)
    requires At(buf, pos, EncodeType(e)) && |e.shape| < 0x100
    ensures ReadType(buf, pos) == Success((e.dtype, e.shape))
  {
    hide At, Encode, ReadU8, EncodeU32s, ReadU32s;
    var n, u := Encode(|e.shape|, 1), EncodeU32s(e.shape);
    Field(buf, pos, DTypeCode(e.dtype) as nat, 1, n + u);
    Field(buf, pos + 1, |e.shape|, 1, u);
    ReadBackU32s(buf, pos + 2, e.shape);
  }

  lemma EntryRoundTrip(buf: Bytes, pos: nat, e: TocEntry)
    requires At(buf, pos, EncodeEntry(e)) && Typed(e) && Fits(e)
    ensures ReadEntry(buf, pos) == Success((e, pos + |EncodeEntry(e)|))
  {
    hide At, Encode, ReadU16, ReadU64, EncodeType, ReadType, EncodeTail, ReadTail, AllStorable, Utf8.Valid, Take, EncodeMap;
    var k, t, rest := e.key, EncodeType(e), EncodeTail(e);
    var kl := Encode(|k|, 2);
    Field(buf, pos, e.keyHash, 8, kl + (k + (t + rest)));
    Field(buf, pos + 8, |k|, 2, k + (t + rest));
    AtSplit(buf, pos + 10, k, t + rest);
    TakeAt(buf, pos + 10, k);
    AtSplit(buf, pos + 10 + |k|, t, rest);
    TypeRoundTrip(buf, pos + 10 + |k|, e);
    TailRoundTrip(buf, pos + 10 + |k| + |t|, e);
  }

  lemma {:induction false} EntriesRoundTrip(buf: Bytes, pos: nat, es: seq<TocEntry>)
    requires At(buf, pos, EncodeEntries(es))
    requires forall e :: e in es ==> Typed(e) && Fits(e)
    ensures ReadEntries(buf, pos, |es|) == Success((es, pos + |EncodeEntries(es)|))
  {
    hide At, EncodeEntry, ReadEntry, Typed, Fits;
    if |es| > 0 {
      var init, last := es[..|es| - 1], es[|es| - 1];
      AtSplit(buf, pos, EncodeEntries(init), EncodeEntry(last));
      EntriesRoundTrip(buf, pos, init);
      EntryRoundTrip(buf, pos + |EncodeEntries(init)|, last);
      assert init + [last] == es;
    }
  }

  /** Every parsed entry fits, whatever the bytes were. */
  lemma ParsedEntryFits(buf: Bytes, pos: nat)
    requires ReadEntry(buf, pos).Success?
    ensures Fits(ReadEntry(buf, pos).value.0)
  {
    hide ReadU8, ReadU16, ReadU64, ReadType, ParseFrom, ReadRefs, Utf8.Valid, EncodeMap;
    var keyLen := ReadU16(buf, pos + 8).value;
    var tailPos := pos + 12 + keyLen + 4 * |ReadType(buf, pos + 10 + keyLen).value.1|;
    var block := Take(buf, tailPos + 4, ReadU32(buf, tailPos).value).value;
    ParsedNamesAreShort(block, 0, map[]);
    ParsedIsShort(block);
  }

  lemma {:induction false} ParsedEntriesFit(buf: Bytes, pos: nat, n: nat)
    requires ReadEntries(buf, pos, n).Success?
    ensures forall e :: e in ReadEntries(buf, pos, n).value.0 ==> Fits(e)
  {
    hide ReadEntry, Fits;
    if n > 0 {
      ParsedEntriesFit(buf, pos, n - 1);
      ParsedEntryFits(buf, ReadEntries(buf, pos, n - 1).value.1);
    }
  }

  /** Key, attribute names and string attributes are text, and no attribute is too large to be set. */
  ghost predicate Textual(e: TocEntry) {
    && Text(e.key)
    && forall k :: k in e.attrs ==>
                     Text(k) && |ValueBytes(e.attrs[k])| <= 4096 && (e.attrs[k].StringValue? ==> Text(e.attrs[k].text))
  }

  /** The types of an entry's fields ask for text, and for nothing that is not text. */
  lemma TypedIsTextual(e: TocEntry)
    ensures Typed(e) <==> Textual(e)
  {
    hide Text, Utf8.Valid;
    ValidIsText(e.key);
    forall k | k in e.attrs ensures Storable(k, e.attrs[k]) <==>
        Text(k) && |ValueBytes(e.attrs[k])| <= 4096 && (e.attrs[k].StringValue? ==> Text(e.attrs[k].text))
    {
      ValidIsText(k);
      if e.attrs[k].StringValue? {
        ValidIsText(e.attrs[k].text);
      }
    }
  }

  /**
   * A table of contents whose keys, names and strings are text, followed by any padding, is read back
   * exactly when every entry fits the widths of its fields and the entries fit a 32-bit count.
   */
  lemma TocRoundTrip(es: seq<TocEntry>, padding: Bytes)
    requires forall e :: e in es ==> Textual(e)
    ensures ParseToc(EncodeToc(es) + padding) == Success(es)
            <==> |es| < U32_LIMIT && forall e :: e in es ==> Fits(e)
  {
    hide Textual, Typed, Fits, ParseToc, EncodeToc;
    forall e | e in es ensures Typed(e) {
      TypedIsTextual(e);
    }
    TypedRoundTrip(es, padding);
  }

  lemma TypedRoundTrip(es: seq<TocEntry>, padding: Bytes)
    requires forall e :: e in es ==> Typed(e)
    ensures ParseToc(EncodeToc(es) + padding) == Success(es)
            <==> |es| < U32_LIMIT && forall e :: e in es ==> Fits(e)
  {
    hide At, Encode, EncodeEntries, ReadEntries, Typed, Fits, ReadU32;
    var buf := EncodeToc(es) + padding;
    assert buf == Encode(|es|, 4) + (EncodeEntries(es) + padding);
    AtWhole(buf);
    Field(buf, 0, |es|, 4, EncodeEntries(es) + padding);
    AtSplit(buf, 4, EncodeEntries(es), padding);
    if |es| < U32_LIMIT && forall e :: e in es ==> Fits(e) {
      EntriesRoundTrip(buf, 4, es);
    }
    if ParseToc(buf) == Success(es) {
      var n := ReadU32(buf, 0).value;
      ParsedEntriesFit(buf, 4, n);
    }
  }
}

// Runs of the engine that do not do what a reader would expect, each on inputs as small as they can be:
// a put that stops, a compaction that loses its tensor or its version, a counter below zero
// (crates/tpx-shard/src/engine.rs).

module ArchiveWitness {
  import opened Wrappers
  import opened Types
  import opened LittleEndian
  import opened TocFormat
  import opened TocIndex
  import opened ChunkIo
  import opened History
  import opened ContentStoreModel
  import opened VersionChainModel
  import opened Ledger
  import opened EngineBatch
  import opened EngineState
  import opened ShardTrees
  import opened Puts
  import opened Recovery
  import opened Engine
  import ArtRuns
  import ArtShape
  import ArtHole
  import Chimp
  import FooterFormat
  import Utf8

  // ---------- chunks that a table has overwritten ----------

  /**
   * A table behind the header page, read as a chunk: its entry count stands where the codec and the filter
   * are. One entry reads as a Chimp128 chunk without blocks, four to 255 as an unknown codec.
   */
  lemma TableIsNoChunk(env: Env, page: Bytes, table: seq<TocEntry>, footer: FooterFormat.Footer, log: Bytes, r: ChunkRef, dtype: DTypeId)
    requires page + Block(EncodeToc(table), footer) <= log
    requires r.chunkOffset == |page| && r.chunkLen > 0 && (|table| == 1 || 4 <= |table| < 256)
    ensures ReadChunk(env, log, r, dtype).Failure?
  {
    hide Block, EncodeToc, DecodeChunk;
    TableFront(table, footer);
    var block := Block(EncodeToc(table), footer);
    if r.chunkOffset + r.chunkLen <= |log| && r.chunkLen >= CHUNK_HEADER_SIZE {
      var bytes := log[r.chunkOffset..r.chunkOffset + r.chunkLen];
      assert forall i :: 0 <= i < 4 ==> bytes[i] == log[|page| + i] == (page + block)[|page| + i] == block[i];
      CountIsCodec(env, bytes, |table|, r.chunkOffset, dtype);
    } else if r.chunkOffset + r.chunkLen <= |log| {
      ShortChunk(env, log[r.chunkOffset..r.chunkOffset + r.chunkLen], r.chunkOffset, dtype);
    }
  }

  lemma ShortChunk(env: Env, bytes: Bytes, offset: nat, dtype: DTypeId)
    requires |bytes| < CHUNK_HEADER_SIZE
    ensures DecodeChunk(env, bytes, offset, dtype).Failure?
  {
  }

  lemma TableFront(table: seq<TocEntry>, footer: FooterFormat.Footer)
    requires |table| < 256
    ensures |Block(EncodeToc(table), footer)| >= 4
    ensures Block(EncodeToc(table), footer)[..4] == [|table| as u8, 0, 0, 0]
  {
    hide EncodeEntries, FooterFormat.Serialize;
    assert Encode(0, 1) == [0] && Encode(0, 2) == [0] + Encode(0, 1) && Encode(0, 3) == [0] + Encode(0, 2);
    assert Encode(|table|, 4) == [|table| as u8] + Encode(0, 3);
  }

  lemma CountIsCodec(env: Env, bytes: Bytes, n: nat, offset: nat, dtype: DTypeId)
    requires |bytes| >= CHUNK_HEADER_SIZE && (n == 1 || 4 <= n < 256)
    requires bytes[0] == n as u8 && bytes[1] == bytes[2] == bytes[3] == 0
    ensures DecodeChunk(env, bytes, offset, dtype).Failure?
  {
    hide ReadU32;
    assert ReadU8(bytes, 0) == Success(n as u8) && ReadU8(bytes, 1) == Success(0);
    if n == 1 {
      assert bytes[2..4] == [0, 0] && Decode([0]) == 0 && [0 as u8, 0][1..] == [0];
      assert Decode([0, 0]) == 0;
      assert ReadU16(bytes, 2) == Success(0);
      assert ReadU32s(bytes, CHUNK_HEADER_SIZE, 0) == Success([]);
      assert bytes[16..16] == [];
      assert Chimp.Decoded([]).Failure?;
    }
  }

  /** A tensor with a chunk that cannot be read cannot be read. */
  lemma LostTensor(env: Env, log: Bytes, e: TocEntry, i: nat)
    requires i < |e.chunkRefs| && ReadChunk(env, log, e.chunkRefs[i], e.dtype).Failure?
    ensures ReadTensor(env, log, e).Failure?
  {
    hide ReadChunk;
    LostChunks(env, log, e.chunkRefs, e.dtype, i);
  }

  lemma {:induction false} LostChunks(env: Env, log: Bytes, rs: seq<ChunkRef>, dtype: DTypeId, i: nat)
    requires i < |rs| && ReadChunk(env, log, rs[i], dtype).Failure?
    ensures ReadChunks(env, log, rs, dtype).Failure?
  {
    hide ReadChunk;
    if i < |rs| - 1 {
      LostChunks(env, log, rs[..|rs| - 1], dtype, i);
    }
  }

  /** After a compaction that found every segment filed: a tensor one of whose chunks ended past the new file is lost. */
  lemma RefiledPastEnd(env: Env, log: Bytes, items: seq<LiveItem>, filed: map<u128, ContentEntry>, es: seq<TocEntry>, i: nat, c: nat)
    requires Refiled(env, items, filed, es) && BehindHeader(filed)
    requires i < |items| && c < |SegmentHashes(env, items[i].tensor.data)|
    requires SegmentHashes(env, items[i].tensor.data)[c] in filed
    requires var stored := filed[SegmentHashes(env, items[i].tensor.data)[c]]; stored.chunkOffset + stored.chunkLen > |log|
    ensures ReadTensor(env, log, es[i]).Failure?
  {
    hide SegmentHashes, DecodeChunk;
    assert es[i] == RefiledEntry(env, items[i], filed);
    LostTensor(env, log, es[i], c);
  }

  lemma OneEntryLooked(env: Env, log: Bytes, e: TocEntry)
    requires e.keyHash == env.keyHash(e.key) && e.tombstone == 0
    ensures Looked(env, log, [e], e.key) == MapSome(ReadTensor(env, log, e))
    ensures VersionRead(env, log, [e], e.key, 1) == Failure(VersionNotFound(1))
  {
    hide ReadTensor;
    assert [e][..0] == [];
    assert IndexOf([e]) == map[e.keyHash := 0];
    assert EntriesOf([e], e.key) == [e];
  }

  // ---------- one tensor, put and compacted ----------

  function OnePut(key: Bytes, t: Tensor): PutItem {
    PutItem(key, t, map[], Some(KeepLatest))
  }

  /** A new archive holding one tensor. */
  method PutOne(env: Env, key: Bytes, t: Tensor, ghost keys: iset<Bytes>, ghost blobs: iset<Bytes>) returns (e: ShardedEngine)
    requires Trusted(env, keys, blobs) && key in keys && Utf8.Valid(key) && SegmentsIn(env, blobs, t.data)
    ensures fresh(e) && fresh(e.io) && fresh(e.toc) && fresh(e.content)
    ensures e.Valid() && e.mode == ReadWrite && e.env == env && e.keys == keys && e.blobs == blobs && e.stale == {} && e.shift == map[]
    ensures e.Records() == [Record(key, t, map[], true)] && AllPacked(e.Shapes()) && e.settled
    ensures e.chains == ChainAfter(map[], env, OnePut(key, t)) && e.leaked == multiset{} && e.missed == multiset{}
    ensures Filed(map[], e.content.entries, HashSet(SegmentHashes(env, t.data)))
    ensures FirstAt(SegmentHashes(env, t.data), map[], e.content.entries, CHUNK_ALIGN)
  {
    hide ShardedEngine.Valid, ShardedEngine.CoreValid, ShardedEngine.StorageOk, ShardedEngine.TreesOk, ShardedEngine.CommitOk;
    hide ShardedEngine.Records, ShardedEngine.CommitStep, SegmentHashes, SegmentsIn, FirstAt, Filed, HashSet, KeyTouches, Routed;
    hide ChainAfter, PutEvicts, NewEntry, AllFiled, Touched, AllPacked, NoTrees, AllSized, Trusted, Fresh, ShardedEngine.Shapes;
    e := ShardedEngine.Create(env, [], None, keys, blobs);
    EngineParts(e);
    NoAttrs();
    FreshStart(SegmentHashes(env, t.data));
    NoTreesPacked(e.shardCount);
    OnlyPut(env, e.shardCount, key, t.data);
    PutsNeverStop(NoTrees(e.shardCount), KeyTouches(env, e.shardCount, key, t.data));
    var r := e.PutWithRetention(key, t.data, t.dtype, t.shape, map[], KeepLatest, 0);
    assert [] + [Record(key, t, map[], true)] == [Record(key, t, map[], true)];
  }

  lemma EngineParts(e: ShardedEngine)
    requires e.Valid()
    ensures e.Sound() && e.CoreValid() && e.io.Valid() && e.shardCount >= 1 && |e.Records()| == |e.toc.entries|
  {
  }

  lemma FreshStart(hashes: seq<u128>)
    ensures Fresh(hashes, {})
  {
  }

  lemma OnlyPut(env: Env, count: u16, key: Bytes, data: Bytes)
    requires count >= 1
    ensures Routed(count, KeyTouches(env, count, key, data))
    ensures forall i :: 0 <= i < |KeyTouches(env, count, key, data)| ==> KeyTouches(env, count, key, data)[i].op.Put?
  {
  }

  lemma OneItem(key: Bytes, t: Tensor)
    ensures var h := [Record(key, t, map[], true)];
            View(h) == map[key := t] && LiveItems(h, View(h)) == [LiveItem(key, t, map[])]
  {
    var h := [Record(key, t, map[], true)];
    assert h[..0] == [];
  }

  lemma OneRefiled(env: Env, key: Bytes, t: Tensor, entries: map<u128, ContentEntry>)
    requires Filed(map[], entries, HashSet(SegmentHashes(env, t.data)))
    ensures EachFiled(env, [LiveItem(key, t, map[])], entries)
    ensures Rewrites([LiveItem(key, t, map[])]) == [OnePut(key, t)]
  {
    hide SegmentHashes;
    var hs := SegmentHashes(env, t.data);
    forall i | 0 <= i < |hs| ensures hs[i] in entries {
      assert hs[i] in HashSet(hs);
      assert hs[i] in entries.Keys;
    }
  }

  /** The same archive compacted, with its content store as it was. */
  method CompactOne(env: Env, key: Bytes, t: Tensor, ghost keys: iset<Bytes>, ghost blobs: iset<Bytes>)
      returns (e: ShardedEngine, before: Result<Option<Tensor>, TpxError>, ghost filed: map<u128, ContentEntry>)
    requires Trusted(env, keys, blobs) && key in keys && Utf8.Valid(key) && SegmentsIn(env, blobs, t.data)
    ensures fresh(e) && fresh(e.io) && fresh(e.toc) && fresh(e.content)
    ensures e.Sound() && e.io.Valid() && e.env == env && before == Success(Some(t))
    ensures AllFiled(SegmentHashes(env, t.data), filed) && FirstAt(SegmentHashes(env, t.data), map[], filed, CHUNK_ALIGN)
    ensures BehindHeader(filed)
    ensures e.toc.entries == [RefiledEntry(env, LiveItem(key, t, map[]), filed)]
    ensures FirstTable(e.io.Content(), HeaderPage(e.shardCount), e.toc.entries)
    ensures e.chains == ChainAfter(ChainAfter(map[], env, OnePut(key, t)), env, OnePut(key, t))
  {
    hide ShardedEngine.Valid, ShardedEngine.CoreValid, ShardedEngine.StorageOk, ShardedEngine.TreesOk, ShardedEngine.CommitOk;
    hide ShardedEngine.Records, SegmentHashes, SegmentsIn, FirstAt, Filed, HashSet, ShardedEngine.Shapes, Leads, RefiledEntry;
    hide ChainAfter, NewEntry, Touched, AllPacked, AllSized, Trusted, TouchesOf, Routed, FirstTable, HeaderPage, View, LiveItems, NoneFiled, EachFiled, ReadersKept;
    e := PutOne(env, key, t, keys, blobs);
    EngineParts(e);
    OneItem(key, t);
    before := e.Get(key);
    EngineParts(e);
    filed := e.content.entries;
    FiledBehind(e);
    OneRefiled(env, key, t, filed);
    ghost var items := [LiveItem(key, t, map[])];
    PutsRouted(env, e.shardCount, Rewrites(items));
    TreesPacked(e);
    PutsNeverStop(e.Shapes(), TouchesOf(env, e.shardCount, Rewrites(items)));
    var r := e.Compact();
    IoValid(e);
    OneChain(e.env, key, t);
    assert e.toc.entries == [e.toc.entries[0]];
  }

  lemma FiledBehind(e: ShardedEngine)
    requires e.Valid()
    ensures BehindHeader(e.content.entries)
  {
    hide StoreOk;
  }

  lemma IoValid(e: ShardedEngine)
    requires e.Sound()
    ensures e.io.Valid()
  {
  }

  lemma TreesPacked(e: ShardedEngine)
    requires e.Valid()
    ensures |e.Shapes()| == e.shardCount && AllSized(e.Shapes())
  {
  }

  lemma OneChain(env: Env, key: Bytes, t: Tensor)
    ensures ChainsAfter(ChainAfter(map[], env, OnePut(key, t)), env, [OnePut(key, t)])
            == ChainAfter(ChainAfter(map[], env, OnePut(key, t)), env, OnePut(key, t))
  {
    hide ChainAfter;
    assert [OnePut(key, t)][..0] == [];
  }

  /**
   * Create, put, compact: whatever the tensor, as long as it has any data, it can be read before the
   * compaction and not after it. The put of the compaction finds every segment filed, so nothing is
   * written but the table, which now stands where the first chunk was.
   */
  method CompactLoses(env: Env, key: Bytes, t: Tensor, ghost keys: iset<Bytes>, ghost blobs: iset<Bytes>)
      returns (before: Result<Option<Tensor>, TpxError>, after: Result<Option<Tensor>, TpxError>)
    requires Trusted(env, keys, blobs) && key in keys && Utf8.Valid(key) && SegmentsIn(env, blobs, t.data) && t.data != []
    ensures before == Success(Some(t)) && after.Failure?
  {
    hide Trusted, SegmentsIn, SegmentHashes, FirstAt, FirstTable, BehindHeader, ReadTensor, HeaderPage, FiledRefs, Looked;
    hide ShardedEngine.StorageOk, ShardedEngine.TreesOk, ShardedEngine.Valid;
    var e;
    ghost var filed;
    e, before, filed := CompactOne(env, key, t, keys, blobs);
    FirstChunkLost(env, e.io.Content(), e.shardCount, LiveItem(key, t, map[]), filed);
    OneEntryLooked(env, e.io.Content(), e.toc.entries[0]);
    after := e.Get(key);
  }

  lemma FirstChunkLost(env: Env, log: Bytes, count: u16, it: LiveItem, filed: map<u128, ContentEntry>)
    requires it.tensor.data != [] && AllFiled(SegmentHashes(env, it.tensor.data), filed) && BehindHeader(filed)
    requires FirstAt(SegmentHashes(env, it.tensor.data), map[], filed, CHUNK_ALIGN)
    requires FirstTable(log, HeaderPage(count), [RefiledEntry(env, it, filed)])
    ensures ReadTensor(env, log, RefiledEntry(env, it, filed)).Failure?
  {
    hide SegmentHashes, HeaderPage, Block, EncodeToc, ReadTensor, ReadChunk;
    var hs, e := SegmentHashes(env, it.tensor.data), RefiledEntry(env, it, filed);
    NoSegments(env, it.tensor.data);
    HeaderOverwrites([], count);
    var n: nat, f: FooterFormat.Footer :| 0 < n <= 1 && HeaderPage(count) + Block(EncodeToc([e][..n]), f) <= log;
    assert hs[0] in filed;
    TableIsNoChunk(env, HeaderPage(count), [e][..n], f, log, e.chunkRefs[0], e.dtype);
    LostTensor(env, log, e, 0);
  }

  /** Create, put, compact: the one listed version is 1, and there is no version 1 to read. */
  method MisalignedIds(env: Env, key: Bytes, t: Tensor, ghost keys: iset<Bytes>, ghost blobs: iset<Bytes>)
      returns (ids: Result<seq<nat>, TpxError>, read: Result<Option<Tensor>, TpxError>)
    requires Trusted(env, keys, blobs) && key in keys && Utf8.Valid(key) && SegmentsIn(env, blobs, t.data)
    ensures ids == Success([1]) && read == Failure(VersionNotFound(1))
  {
    hide Trusted, SegmentsIn, SegmentHashes, FirstAt, FirstTable, BehindHeader, ReadTensor, HeaderPage, FiledRefs, VersionRead;
    hide ShardedEngine.StorageOk, ShardedEngine.TreesOk, ShardedEngine.Valid, ChainAfter;
    var e, before;
    ghost var filed;
    e, before, filed := CompactOne(env, key, t, keys, blobs);
    SecondVersion(env, key, t);
    OneEntryLooked(env, e.io.Content(), e.toc.entries[0]);
    ids := e.ListVersionIds(key);
    read := e.GetVersion(key, 1);
  }

  lemma SecondVersion(env: Env, key: Bytes, t: Tensor)
    ensures var chains := ChainAfter(ChainAfter(map[], env, OnePut(key, t)), env, OnePut(key, t));
            key in chains && chains[key].versions != [] && ListVersions(chains[key]) == [1]
  {
    hide SegmentHashes;
    var once := ChainAfter(map[], env, OnePut(key, t));
    assert |once[key].versions| == 1 && once[key].versions[0].versionId == 0 && once[key].retention == KeepLatest;
  }

  /** Put, delete, compact: nothing is lost although chunks stay filed, since no tensor is left to lose. */
  method DeadCompact(env: Env, key: Bytes, t: Tensor, ghost keys: iset<Bytes>, ghost blobs: iset<Bytes>) returns (e: ShardedEngine)
    requires Trusted(env, keys, blobs) && key in keys && Utf8.Valid(key) && SegmentsIn(env, blobs, t.data) && t.data != []
    ensures e.Valid() && e.Records() == [] && e.content.entries != map[]
  {
    hide ShardedEngine.Valid, ShardedEngine.CoreValid, ShardedEngine.StorageOk, ShardedEngine.TreesOk, ShardedEngine.CommitOk;
    hide ShardedEngine.Records, SegmentHashes, SegmentsIn, FirstAt, ShardedEngine.Shapes, Leads, ChainsAfter;
    hide ChainAfter, Touched, AllPacked, AllSized, Trusted, TouchesOf, Routed, FirstTable, HeaderPage, View, LiveItems;
    e := PutOne(env, key, t, keys, blobs);
    EngineParts(e);
    NoSegments(env, t.data);
    assert SegmentHashes(env, t.data)[0] in HashSet(SegmentHashes(env, t.data));
    assert SegmentHashes(env, t.data)[0] in e.content.entries.Keys;
    OneDead(key, t);
    var d := e.Delete(key);
    EngineParts(e);
    PutsRouted(env, e.shardCount, Rewrites([]));
    TreesPacked(e);
    NoTouches(env, e.shardCount, e.Shapes());
    var r := e.Compact();
    StaleFiled(e);
  }

  lemma OneDead(key: Bytes, t: Tensor)
    ensures var h := Dead([Record(key, t, map[], true)], key); View(h) == map[] && LiveItems(h, View(h)) == []
  {
    var h := Dead([Record(key, t, map[], true)], key);
    assert h == [Record(key, t, map[], false)] && h[..0] == [];
  }

  lemma NoTouches(env: Env, count: u16, shapes: Shapes)
    requires AllSized(shapes)
    ensures Rewrites([]) == [] && Routed(|shapes|, TouchesOf(env, count, [])) && Touched(shapes, TouchesOf(env, count, [])) == Some(shapes)
  {
  }

  lemma StaleFiled(e: ShardedEngine)
    requires e.Valid()
    ensures e.stale <= e.content.entries.Keys
  {
    hide StoreOk, BehindHeader;
  }

  // ---------- a counter below zero ----------

  /** The same data under two keys. */
  function Twice(k1: Bytes, k2: Bytes, t: Tensor): seq<BatchItem> {
    [BatchItem(k1, t.data, t.dtype, t.shape), BatchItem(k2, t.data, t.dtype, t.shape)]
  }

  /**
   * A batch that stores one segment under two keys counts it once; replacing both tensors then takes its
   * 32-bit counter from one through zero to 2^32 - 1, so that a chunk nobody uses is never collected.
   */
  method CountBelowZero(env: Env, k1: Bytes, k2: Bytes, t: Tensor, ghost keys: iset<Bytes>, ghost blobs: iset<Bytes>)
      returns (e: ShardedEngine)
    requires Trusted(env, keys, blobs) && k1 != k2 && k1 in keys && k2 in keys && Utf8.Valid(k1) && Utf8.Valid(k2)
    requires SegmentsIn(env, blobs, t.data) && |SegmentHashes(env, t.data)| == 1
    ensures e.Valid()
    ensures var h := SegmentHashes(env, t.data)[0];
            && h in e.content.entries && e.content.entries[h].refcount == U32_LIMIT - 1
            && h !in Uses(e.chains) && h !in GcCandidates(e.content.entries)
  {
    hide ShardedEngine.Valid, ChainAfter, Trusted, SegmentsIn, SegmentHashes, Uses;
    e := PutTwice(env, k1, k2, t, keys, blobs);
    ghost var h, chains := SegmentHashes(env, t.data)[0], e.chains;
    PutNothing(e, k1, h);
    ghost var chains' := e.chains;
    PutNothing(e, k2, h);
    TwiceReplaced(env, k1, k2, t, chains, chains', e.chains);
    BelowZero(e, h);
  }

  /** A new archive with the batch: one use of the segment is missed. */
  method PutTwice(env: Env, k1: Bytes, k2: Bytes, t: Tensor, ghost keys: iset<Bytes>, ghost blobs: iset<Bytes>)
      returns (e: ShardedEngine)
    requires Trusted(env, keys, blobs) && k1 != k2 && k1 in keys && k2 in keys && Utf8.Valid(k1) && Utf8.Valid(k2)
    requires SegmentsIn(env, blobs, t.data) && |SegmentHashes(env, t.data)| == 1
    ensures fresh(e) && fresh(e.io) && fresh(e.toc) && fresh(e.content)
    ensures e.Valid() && e.mode == ReadWrite && e.env == env && e.keys == keys && e.blobs == blobs && e.stale == {}
    ensures var h := SegmentHashes(env, t.data)[0];
            h in e.content.entries && e.missed[h] == 1 && e.leaked[h] == 0 && |e.toc.entries| == 2 && e.chains.Keys == {k1, k2}
  {
    hide ShardedEngine.Valid, ShardedEngine.CoreValid, ShardedEngine.StorageOk, ShardedEngine.TreesOk, ShardedEngine.CommitOk;
    hide ShardedEngine.Records, SegmentHashes, SegmentsIn, ShardedEngine.Shapes, ChainsAfter, ShardedEngine.CommitStep;
    hide Touched, AllPacked, AllSized, Trusted, TouchesOf, Routed, Uses, LeakOf, EvictedBy, HashesIn, NoTrees, Fresh, BatchRecords, BatchPuts, HashKeys;
    e := ShardedEngine.Create(env, [], None, keys, blobs);
    EngineParts(e);
    ghost var h, items, ps := SegmentHashes(env, t.data)[0], Twice(k1, k2, t), BatchPuts(Twice(k1, k2, t));
    FreshStart(SegmentHashes(env, t.data));
    NoTreesPacked(e.shardCount);
    PutsRouted(env, e.shardCount, ps);
    PutsNeverStop(NoTrees(e.shardCount), TouchesOf(env, e.shardCount, ps));
    TwiceBooks(env, k1, k2, t);
    var r;
    ghost var n;
    r, n := e.PutBatch(Twice(k1, k2, t), 0);
    EngineParts(e);
    TwiceDone(e, n, k1, k2, t);
  }

  lemma TwiceDone(e: ShardedEngine, n: nat, k1: Bytes, k2: Bytes, t: Tensor)
    requires k1 != k2 && |SegmentHashes(e.env, t.data)| == 1 && e.shardCount >= 1 && |e.Shapes()| == e.shardCount
    requires BatchDone(e.env, e.shardCount, BatchPuts(Twice(k1, k2, t)), n, map[], NoTrees(e.shardCount), {}, multiset{}, multiset{},
                       e.chains, e.Shapes(), e.content.entries.Keys, e.missed, e.leaked)
    ensures n == 2 && e.chains.Keys == {k1, k2}
    ensures var h := SegmentHashes(e.env, t.data)[0]; h in e.content.entries && e.missed[h] == 1 && e.leaked[h] == 0
  {
    hide SegmentHashes, ChainsAfter, Touched, AllPacked, AllSized, TouchesOf, EvictedBy, HashesIn, NoTrees, BatchPuts, HashKeys;
    var ps := BatchPuts(Twice(k1, k2, t));
    TwiceBooks(e.env, k1, k2, t);
    NoTreesPacked(e.shardCount);
    PutsRouted(e.env, e.shardCount, ps);
    PutsNeverStop(NoTrees(e.shardCount), TouchesOf(e.env, e.shardCount, ps));
    assert ps[..2] == ps;
    assert SegmentHashes(e.env, t.data)[0] in e.content.entries.Keys;
  }

  /** A put of empty data over trees without holes; the books of `h` are left alone. */
  method PutNothing(e: ShardedEngine, key: Bytes, ghost h: u128)
    requires e.Valid() && e.mode == ReadWrite && e.stale == {} && |e.toc.entries| + 1 < U32_LIMIT
    requires key in e.keys && Utf8.Valid(key) && h in e.content.entries
    modifies e, e.io, e.toc, e.content
    ensures e.Valid() && e.stale == {} && e.missed == old(e.missed) && h in e.content.entries
    ensures e.leaked[h] == old(e.leaked)[h] && |e.toc.entries| == |old(e.toc.entries)| + 1
    ensures e.chains == ChainAfter(old(e.chains), e.env, OnePut(key, Tensor(UInt8, [0], [])))
  {
    hide ShardedEngine.Valid, ShardedEngine.CoreValid, ShardedEngine.StorageOk, ShardedEngine.TreesOk, ShardedEngine.CommitOk;
    hide ShardedEngine.Records, SegmentHashes, SegmentsIn, FirstAt, ShardedEngine.Shapes, ShardedEngine.CommitStep;
    hide ChainAfter, AllSized, AllFiled, LeakOf, PutEvicts, Fresh, HashSet;
    EngineParts(e);
    FreshStart(SegmentHashes(e.env, []));
    NoSegmentsIn(e.env, e.blobs);
    NoAttrs();
    TreesPacked(e);
    ghost var evicted := PutEvicts(e.chains, e.env, OnePut(key, Tensor(UInt8, [0], [])));
    OneTouch(e.Shapes(), e.env, e.shardCount, key, []);
    var r := e.PutWithRetention(key, [], UInt8, [0], map[], KeepLatest, 0);
    LeakCount(evicted, e.content.entries.Keys, h);
  }

  lemma NoSegmentsIn(env: Env, blobs: iset<Bytes>)
    ensures SegmentsIn(env, blobs, [])
  {
    NoSegments(env, []);
  }

  lemma TwiceBooks(env: Env, k1: Bytes, k2: Bytes, t: Tensor)
    requires k1 != k2 && |SegmentHashes(env, t.data)| == 1
    ensures var (ps, h) := (BatchPuts(Twice(k1, k2, t)), SegmentHashes(env, t.data)[0]);
            && |ps| == 2 && HashesIn(env, ps)[h] == 2 && h in HashKeys(env, ps) && HashesIn(env, ps[2..]) == multiset{}
            && EvictedBy(map[], env, ps) == []
            && var chains := ChainsAfter(map[], env, ps);
               chains.Keys == {k1, k2}
  {
    hide SegmentHashes;
    var ps, hs := BatchPuts(Twice(k1, k2, t)), SegmentHashes(env, t.data);
    assert hs == [hs[0]] && ps[1..] == [ps[1]] && ps[1..][1..] == [] && ps[..1] == [ps[0]] && ps[..1][..0] == [];
    assert HashesIn(env, ps[1..]) == multiset(hs) + HashesIn(env, []);
    assert HashesIn(env, ps) == multiset(hs) + HashesIn(env, ps[1..]);
    assert ChainsAfter(map[], env, ps[..1]) == ChainAfter(map[], env, ps[0]);
    NoneEvicted(map[], env, ps[0]);
    NoneEvicted(ChainAfter(map[], env, ps[0]), env, ps[1]);
    assert EvictedBy(map[], env, ps[..1]) == [];
  }

  lemma NoneEvicted(chains: Chains, env: Env, p: PutItem)
    requires p.key !in chains
    ensures PutEvicts(chains, env, p) == []
  {
    hide SegmentHashes;
  }

  lemma TwiceReplaced(env: Env, k1: Bytes, k2: Bytes, t: Tensor, chains: Chains, chains': Chains, chains'': Chains)
    requires k1 != k2 && chains.Keys == {k1, k2}
    requires chains' == ChainAfter(chains, env, OnePut(k1, Tensor(UInt8, [0], [])))
    requires chains'' == ChainAfter(chains', env, OnePut(k2, Tensor(UInt8, [0], [])))
    ensures Uses(chains'') == multiset{}
  {
    hide Uses;
    NoSegments(env, []);
    OnlyEmpty(chains, env, k1);
    OnlyEmpty(chains', env, k2);
    NoUses(chains'');
  }

  /** After a put of empty data that keeps the latest version only, the chain uses nothing. */
  lemma OnlyEmpty(chains: Chains, env: Env, key: Bytes)
    requires SegmentHashes(env, []) == []
    ensures var c := ChainAfter(chains, env, OnePut(key, Tensor(UInt8, [0], [])))[key]; HashesOf(c.versions) == []
  {
    hide SegmentHashes;
    var p := Pushed(Pushing(chains, key, Some(KeepLatest)), UInt8, [0], map[], []);
    var vs := Retained(p).versions;
    assert |vs| == 1 && vs[0] == p.versions[|p.versions| - 1] && vs[..0] == [];
  }

  lemma {:induction false} NoUses(chains: Chains)
    requires forall k :: k in chains ==> HashesOf(chains[k].versions) == []
    ensures Uses(chains) == multiset{}
    decreases |chains|
  {
    if chains != map[] {
      var k :| k in chains && Uses(chains) == ChainHashes(chains[k]) + Uses(chains - {k});
      NoUses(chains - {k});
      assert ChainHashes(chains[k]) == multiset{};
    }
  }

  lemma BelowZero(e: ShardedEngine, h: u128)
    requires e.Valid() && h in e.content.entries && Uses(e.chains) == multiset{} && e.leaked[h] == 0 && e.missed[h] == 1
    ensures e.content.entries[h].refcount == U32_LIMIT - 1 && h !in GcCandidates(e.content.entries)
  {
    hide ShardedEngine.CoreValid, ShardedEngine.TreesOk, Uses;
    assert Net(Uses(e.chains), e.leaked, e.missed, h) == -1;
  }

  /** One byte is one segment, so such data exists. */
  lemma OneByte(env: Env, b: u8)
    ensures |SegmentHashes(env, [b])| == 1
  {
  }

  // ---------- a put that stops ----------

  /** Puts of the keys 0 to 16, a delete of 0, a put of 17, a delete of 17, and a put of 16. */
  function HoleOps(): (ops: seq<ArtRuns.Op<int>>) {
    ArtHole.Puts(17) + [ArtRuns.Del([0]), ArtRuns.Put([17], 17)] + [ArtRuns.Del([17]), ArtRuns.Put([16], 0)]
  }

  function HoleTouches(ops: seq<ArtRuns.Op<int>>): (ts: seq<Touch>)
    ensures |ts| == |ops| && Routed(1, ts)
  {
    seq(|ops|, i requires 0 <= i < |ops| => Touch(0, ArtShape.OpShape(ops[i])))
  }

  lemma {:induction false} HolePuts(n: nat)
    requires n <= 256
    ensures |ArtHole.Puts(n)| == n
    ensures forall i :: 0 <= i < n ==> ArtHole.Puts(n)[i] == ArtRuns.Put([i as u8], i)
  {
    if n > 0 {
      HolePuts(n - 1);
    }
  }

  lemma HoleKeys()
    ensures |HoleOps()| == 21 && HoleOps()[20].Put?
    ensures forall i :: 0 <= i < 21 ==> exists b: u8 :: b <= 17 && HoleOps()[i].key == [b]
  {
    HolePuts(17);
    var ops := HoleOps();
    forall i | 0 <= i < 21 ensures exists b: u8 :: b <= 17 && ops[i].key == [b] {
      if i < 17 {
        assert ops[i] == ArtHole.Puts(17)[i];
        assert ops[i].key == [i as u8];
      } else {
        assert ops[17].key == [0] && ops[18].key == [17] && ops[19].key == [17] && ops[20].key == [16];
      }
    }
  }

  lemma {:induction false} OneShardOps(ops: seq<ArtRuns.Op<int>>)
    ensures ShardOps(HoleTouches(ops), 0) == ArtShape.OpShapes(ops)
    decreases |ops|
  {
    if ops != [] {
      OneShardOps(ops[1..]);
      assert HoleTouches(ops)[1..] == HoleTouches(ops[1..]);
      assert ArtShape.OpShapes(ops) == [ArtShape.OpShape(ops[0])] + ArtShape.OpShapes(ops[1..]);
    }
  }

  /** The first 20 operations run on the one tree; the last put does not. */
  lemma HoleTouched(i: nat)
    requires i <= 21 && |HoleOps()| == 21
    ensures AllSized(NoTrees<()>(1))
    ensures Touched(NoTrees(1), HoleTouches(HoleOps())[..i]).None? <==> i == 21
  {
    hide ArtRuns.Run, ArtHole.Puts, Touched, HoleOps;
    var ops := HoleOps();
    NoTreesPacked(1);
    assert HoleTouches(ops)[..i] == HoleTouches(ops[..i]);
    OneShardOps(ops[..i]);
    TouchedByShard(NoTrees(1), HoleTouches(ops[..i]));
    ArtShape.ShapeRun<int>(None, ops[..i]);
    HolePrefix(i);
    var one: Shapes := NoTrees(1);
    assert one[0] == None;
  }

  lemma HolePrefix(i: nat)
    requires i <= 21 && |HoleOps()| == 21
    ensures ArtRuns.Run(None, HoleOps()[..i]).Stopped? <==> i == 21
  {
    hide ArtRuns.Run, ArtHole.Puts;
    var ops := HoleOps();
    if i == 21 {
      assert ops[..21] == ops;
      ArtHole.HoleStops();
    } else {
      var nineteen := ArtHole.Puts(17) + [ArtRuns.Del([0]), ArtRuns.Put([17], 17)];
      var del: ArtRuns.Op<int> := ArtRuns.Del([17]);
      ArtHole.HoleLosesKey();
      ArtHole.RunAppend<int>(None, nineteen, [del]);
      ArtHole.OneStep(ArtRuns.Run(None, nineteen).tree, del);
      assert ops[..20] == nineteen + [del];
      assert ops[..20] == ops[..i] + ops[i..20];
      ArtHole.RunAppend<int>(None, ops[..i], ops[i..20]);
    }
  }

  /**
   * A run of the engine that a tree stops: on an archive of one shard, 18 one-byte keys suffice. The last
   * put finds the slot of its byte empty and runs into the `unwrap`, although no operation was misused.
   */
  method HoleRun(env: Env, t: Tensor, ghost keys: iset<Bytes>, ghost blobs: iset<Bytes>)
      returns (e: ShardedEngine, done: nat, last: Outcome<Result<(), TpxError>>)
    requires Trusted(env, keys, blobs) && SegmentsIn(env, blobs, t.data) && t.data != []
    requires forall b: u8 :: b <= 17 ==> [b] in keys
    ensures done == 20 && last == Panicked && e.Valid()
  {
    hide ShardedEngine.Valid, Trusted, SegmentsIn, HoleOps, Touched, AllSized, NoTrees, ShardedEngine.Shapes;
    HoleKeys();
    NoTreesPacked(1);
    e := ShardedEngine.Create(env, [], Some(1), keys, blobs);
    var ops := HoleOps();
    ghost var ts := HoleTouches(ops);
    NoTouchesYet(ts);
    for i := 0 to 20
      invariant e.Valid() && e.mode == ReadWrite && e.shardCount == 1 && e.stale == {} && |e.toc.entries| <= i
      invariant e.env == env && e.keys == keys && e.blobs == blobs
      invariant fresh(e) && fresh(e.io) && fresh(e.toc) && fresh(e.content)
      invariant Routed(1, ts[..i]) && Touched(NoTrees(1), ts[..i]) == Some(e.Shapes())
    {
      HoleTouched(i + 1);
      ghost var b: u8 :| b <= 17 && ops[i].key == [b];
      assert ts[..i + 1] == ts[..i] + [ts[i]];
      var r := HoleStep(e, ops[i], t, b, ts[..i], ts[i]);
    }
    HoleTouched(21);
    ghost var b: u8 :| b <= 17 && ops[20].key == [b];
    assert ts[..21] == ts[..20] + [ts[20]];
    last := HoleStep(e, ops[20], t, b, ts[..20], ts[20]);
    done := 20;
  }

  lemma NoTouchesYet(ts: seq<Touch>)
    ensures AllSized(NoTrees<()>(1)) && Routed(1, ts[..0]) && Touched(NoTrees(1), ts[..0]) == Some(NoTrees<()>(1))
  {
  }

  /** One operation of the run on the engine, which stops just when the touches do. */
  method HoleStep(e: ShardedEngine, op: ArtRuns.Op<int>, t: Tensor, ghost b: u8,
                  ghost before: seq<Touch>, ghost now: Touch)
      returns (r: Outcome<Result<(), TpxError>>)
    requires e.Valid() && e.mode == ReadWrite && e.shardCount == 1 && e.stale == {} && |e.toc.entries| + 1 < U32_LIMIT
    requires SegmentsIn(e.env, e.blobs, t.data) && t.data != [] && b <= 17 && op.key == [b] && [b] in e.keys
    requires AllSized(NoTrees<()>(1)) && Routed(1, before) && Routed(1, before + [now]) && now == Touch(0, ArtShape.OpShape(op))
    requires Touched(NoTrees(1), before) == Some(e.Shapes())
    modifies e, e.io, e.toc, e.content
    ensures e.Valid() && e.stale == {} && |e.toc.entries| <= |old(e.toc.entries)| + 1
    ensures Touched(NoTrees(1), before + [now]) == if r.Panicked? then None else Some(e.Shapes())
  {
    hide ShardedEngine.Valid, ShardedEngine.CoreValid, ShardedEngine.StorageOk, ShardedEngine.TreesOk, SegmentHashes, SegmentsIn, ShardedEngine.Shapes;
    hide Touched, NoTrees, FirstAt, ChainAfter, AllFiled, LeakOf, PutEvicts, Fresh, HashSet, ShardedEngine.Records, AllSized;
    EngineParts(e);
    TreesPacked(e);
    FreshStart(SegmentHashes(e.env, t.data));
    NoAttrs();
    assert Routed(1, [now]);
    TouchedAppend(NoTrees(1), before, [now]);
    match op
    case Put(key, _) =>
      AsciiKey(b);
      assert KeyTouches(e.env, 1, key, t.data) == [now];
      r := e.PutWithRetention(key, t.data, t.dtype, t.shape, map[], KeepLatest, 0);
    case Del(key) =>
      var d := e.Delete(key);
      r := Returned(d);
  }

  lemma AsciiKey(b: u8)
    requires b <= 17
    ensures Utf8.Valid([b])
  {
  }
}

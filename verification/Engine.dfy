// The archive engine: put, batch put, get, delete, versions, checkpoint, compaction and open
// (crates/tpx-shard/src/engine.rs, crates/tpx-shard/src/checkpoint.rs).

module Engine {
  import opened Wrappers
  import opened Types
  import opened LittleEndian
  import opened AttrsFormat
  import opened TocFormat
  import opened TocIndex
  import opened ChunkIo
  import opened ChunkDecoding
  import opened History
  import opened ContentStoreModel
  import opened VersionChainModel
  import opened Ledger
  import opened EngineBatch
  import opened EngineState
  import opened Recovery
  import opened ShardTrees
  import opened Puts
  import Art
  import ArtRuns
  import ArtShape
  import ArtTree
  import ChunkFormat
  import HeaderFormat
  import Filters
  import FooterFormat
  import Backend
  import Utf8
  import Cdc
  import CdcProperties

  const CHECKPOINT_INTERVAL_BYTES := 64 * 1024 * 1024
  const CHECKPOINT_INTERVAL_MS := 60_000

  /** The segments the chunker cuts `data` into all belong to the blobs whose hashes do not collide. */
  ghost predicate SegmentsIn(env: Env, blobs: iset<Bytes>, data: Bytes) {
    var segs := Cdc.SegmentsFrom(data, 0, Cdc.DEFAULT_CONFIG, env.contentHash);
    forall i :: 0 <= i < |segs| && segs[i].offset + segs[i].len <= |data| ==> CdcProperties.Slice(data, segs[i]) in blobs
  }

  /** LZ4 is lossless, and neither hash collides on the keys and blobs in use. */
  ghost predicate Trusted(env: Env, keys: iset<Bytes>, blobs: iset<Bytes>) {
    Lawful(env) && Injective(env.keyHash, keys) && Injective(env.contentHash, blobs)
  }

  /** The header, zero-padded to a whole page. */
  function HeaderPage(shardCount: u16): Bytes {
    ChunkFormat.Padded(HeaderFormat.HeaderBytes(shardCount, CHUNK_ALIGN), CHUNK_ALIGN)
  }

  lemma HeaderOverwrites(file: Bytes, shardCount: u16)
    ensures var c := Backend.Patched(file, 0, HeaderPage(shardCount));
            && |c| == (if |file| < CHUNK_ALIGN then CHUNK_ALIGN else |file|)
            && At(c, 0, HeaderFormat.HeaderBytes(shardCount, CHUNK_ALIGN))
    ensures |HeaderPage(shardCount)| == CHUNK_ALIGN
  {
    hide HeaderFormat.HeaderBytes;
    var page, c := HeaderPage(shardCount), Backend.Patched(file, 0, HeaderPage(shardCount));
    assert |page| == CHUNK_ALIGN;
    assert c[0..HEADER_SIZE] == c[0..|page|][..HEADER_SIZE];
  }

  lemma TensorGrows(env: Env, log: Bytes, longer: Bytes, e: TocEntry)
    requires log <= longer && ReadTensor(env, log, e).Success?
    ensures ReadTensor(env, longer, e) == ReadTensor(env, log, e)
  {
    hide ReadChunks;
    ReadChunksGrows(env, log, longer, e.chunkRefs, e.dtype);
  }

  lemma EmptyTable(env: Env, keys: iset<Bytes>, log: Bytes)
    ensures TableOk(env, keys, log, []) && HistoryOf(env, log, []) == []
    ensures ChainsOk([], map[], map[]) && Uses(map[]) == multiset{} && IndexOf([]) == map[]
  {
  }

  /** `image` is the last commit `file` with table `es`, and a tail the scan cannot mistake. */
  ghost predicate Intact(env: Env, keys: iset<Bytes>, image: Bytes, file: Bytes, count: u16, es: seq<TocEntry>) {
    && count >= 1 && HEADER_SIZE <= |file| && file <= image
    && Committed(file, count, es) && TableOk(env, keys, file, es)
    && CleanTail(file, image[|file|..])
  }

  lemma OpenedIntact(env: Env, keys: iset<Bytes>, image: Bytes, file: Bytes, count: u16, es: seq<TocEntry>)
    requires Intact(env, keys, image, file, count, es)
    ensures Recover(image) == Success(Recovered(CHUNK_ALIGN, count, es, |file|))
    ensures |file| % CHUNK_ALIGN == 0 && At(file, 0, HeaderFormat.HeaderBytes(count, CHUNK_ALIGN))
    ensures At(image, 0, HeaderFormat.HeaderBytes(count, CHUNK_ALIGN))
    ensures Readable(env, file, es) && DeadFirst(HistoryOf(env, file, es))
    ensures file == image[..|file|] && (|file| == |image| ==> file == image)
    ensures count >= 1 && HEADER_SIZE <= |file| && Committed(file, count, es) && TableOk(env, keys, file, es)
  {
    hide Recover, TableOk, HeaderFormat.HeaderBytes, ParseToc, FooterFormat.Probe, CleanTail;
    assert image == file + image[|file|..];
    RecoverCommitted(file, image[|file|..], count, es);
    assert image[0..HEADER_SIZE] == file[0..HEADER_SIZE];
    TableParts(env, keys, file, es);
  }

  lemma ProbePoints(image: Bytes, offset: nat, footer: FooterFormat.Footer)
    requires FooterFormat.Probe(image, offset) == Some(footer)
    ensures footer.tocOffset < offset && offset + FOOTER_SIZE <= |image|
  {
  }

  lemma TableParts(env: Env, keys: iset<Bytes>, log: Bytes, es: seq<TocEntry>)
    requires TableOk(env, keys, log, es)
    ensures Readable(env, log, es) && DeadFirst(HistoryOf(env, log, es))
  {
  }

  lemma BalanceFresh(uses: multiset<u128>)
    ensures Balanced(map[], uses, multiset{}, uses)
  {
  }

  /** The stand-in hash that `open` files a reference under. */
  function PseudoHashes(refs: seq<ChunkRef>): seq<u128> {
    seq(|refs|, i requires 0 <= i < |refs| =>
      refs[i].shardId * 0x1_0000_0000_0000_0000 + refs[i].chunkOffset % 0x1_0000_0000_0000_0000)
  }

  /** A version rebuilt from a table entry: its hashes are the shard in the upper and the offset in the lower 64 bits. */
  ghost predicate VersionOf(v: VersionEntry, e: TocEntry) {
    && v.dtype == e.dtype && v.shape == e.shape && v.attrs == e.attrs && |v.chunkHashes| == |e.chunkRefs|
    && forall j :: 0 <= j < |e.chunkRefs| ==>
                     v.chunkHashes[j] == e.chunkRefs[j].shardId * 0x1_0000_0000_0000_0000 + e.chunkRefs[j].chunkOffset % 0x1_0000_0000_0000_0000
  }

  /** The versions are those of the last entries. */
  ghost predicate VersionsFrom(vs: seq<VersionEntry>, es: seq<TocEntry>) {
    |vs| <= |es| && forall i :: 0 <= i < |vs| ==> VersionOf(vs[i], es[|es| - |vs| + i])
  }

  ghost predicate RebuiltFrom(es: seq<TocEntry>, chains: Chains) {
    forall k :: k in chains ==> chains[k].retention == KeepForever && VersionsFrom(chains[k].versions, EntriesOf(es, k))
  }

  lemma NothingRebuilt()
    ensures RebuiltFrom([], map[])
  {
  }

  lemma AllKept(c: VersionChain, e: TocEntry) returns (v: VersionEntry)
    requires c.retention == KeepForever
    ensures VersionOf(v, e)
    ensures Retained(Pushed(c, e.dtype, e.shape, e.attrs, PseudoHashes(e.chunkRefs))) == c.(versions := c.versions + [v])
  {
    v := VersionEntry(NextId(c.versions), e.dtype, e.shape, e.attrs, PseudoHashes(e.chunkRefs));
    assert (c.versions + [v])[0..] == c.versions + [v];
  }

  lemma VersionsSnoc(vs: seq<VersionEntry>, es: seq<TocEntry>, v: VersionEntry, e: TocEntry)
    requires VersionsFrom(vs, es) && VersionOf(v, e)
    ensures VersionsFrom(vs + [v], es + [e])
  {
    hide VersionOf;
  }

  lemma RebuiltStep(es: seq<TocEntry>, e: TocEntry, chains: Chains, c: VersionChain, c': VersionChain)
    requires RebuiltFrom(es, chains) && c == if e.key in chains then chains[e.key] else VersionChain(e.key, [], KeepForever)
    requires c' == Retained(Pushed(c, e.dtype, e.shape, e.attrs, PseudoHashes(e.chunkRefs)))
    ensures RebuiltFrom(es + [e], chains[e.key := c'])
  {
    hide EntriesOf, Retained, Pushed, PseudoHashes, VersionOf;
    var v := AllKept(c, e);
    forall k ensures EntriesOf(es + [e], k) == EntriesOf(es, k) + if e.key == k then [e] else [] {
      EntriesSnoc(es, e, k);
    }
    VersionsSnoc(c.versions, EntriesOf(es, e.key), v, e);
  }

  lemma RebuiltWithout(es: seq<TocEntry>, e: TocEntry, chains: Chains)
    requires RebuiltFrom(es, chains)
    ensures RebuiltFrom(es + [e], chains - {e.key})
  {
    hide EntriesOf;
    forall k ensures EntriesOf(es + [e], k) == EntriesOf(es, k) + if e.key == k then [e] else [] {
      EntriesSnoc(es, e, k);
    }
  }

  lemma EntriesSnoc(es: seq<TocEntry>, e: TocEntry, k: Bytes)
    ensures EntriesOf(es + [e], k) == EntriesOf(es, k) + if e.key == k then [e] else []
  {
    assert (es + [e])[..|es|] == es;
  }

  /** One version per live entry, all kept; a tombstoned entry drops its key's chain. */
  method RebuildChains(entries: seq<TocEntry>, ghost env: Env, ghost log: Bytes) returns (chains: Chains)
    ensures Readable(env, log, entries) && DeadFirst(HistoryOf(env, log, entries)) ==>
              && ChainsRebuilt(HistoryOf(env, log, entries), chains)
              && ChainsOk(HistoryOf(env, log, entries), chains, map[]) && ChainsLive(HistoryOf(env, log, entries), chains)
    ensures RebuiltFrom(entries, chains)
  {
    hide ReadChunks, ChainsRebuilt, Retained, Pushed, Evicted, RebuiltFrom, KeepsLast, PseudoHashes;
    chains := map[];
    ghost var ok := Readable(env, log, entries) && DeadFirst(HistoryOf(env, log, entries));
    NoChains();
    NothingRebuilt();
    for i := 0 to |entries|
      invariant ok ==> Readable(env, log, entries[..i]) && ChainsRebuilt(HistoryOf(env, log, entries[..i]), chains)
      invariant RebuiltFrom(entries[..i], chains)
    {
      var entry := entries[i];
      assert entries[..i + 1] == entries[..i] + [entry];
      if entry.tombstone == 0 {
        var chain := if entry.key in chains then chains[entry.key] else VersionChain(entry.key, [], KeepForever);
        var chain', id, evicted :=
          VersionChainModel.Append(chain, entry.dtype, entry.shape, entry.attrs, PseudoHashes(entry.chunkRefs));
        RebuiltStep(entries[..i], entry, chains, chain, chain');
        if ok {
          HistoryAppend(env, log, entries[..i], entry);
          RebuiltPut(HistoryOf(env, log, entries[..i]), chains, RecordOf(env, log, entry), chain,
                     PseudoHashes(entry.chunkRefs));
        }
        chains := chains[entry.key := chain'];
      } else {
        if ok {
          HistoryAppend(env, log, entries[..i], entry);
          DeadBefore(env, log, entries, i);
          RebuiltDead(HistoryOf(env, log, entries[..i]), chains, RecordOf(env, log, entry));
        }
        RebuiltWithout(entries[..i], entry, chains);
        chains := chains - {entry.key};
      }
    }
    assert entries[..|entries|] == entries;
    if ok {
      RebuiltOk(HistoryOf(env, log, entries), chains);
    }
  }

  /** Exactly one version per live record of each live key, numbered from zero, all kept. */
  ghost predicate ChainsRebuilt(h: seq<Record>, chains: Chains) {
    forall k :: (k in chains <==> |LiveRecords(h, k)| > 0)
                && (k in chains ==> chains[k].retention == KeepForever && IdsFromZero(chains[k].versions, |LiveRecords(h, k)|))
  }

  predicate IdsFromZero(vs: seq<VersionEntry>, n: nat) {
    |vs| == n && forall i :: 0 <= i < n ==> vs[i].versionId == i
  }

  lemma RebuiltPut(h: seq<Record>, chains: Chains, r: Record, c: VersionChain, hashes: seq<u128>)
    requires ChainsRebuilt(h, chains) && r.live
    requires c == if r.key in chains then chains[r.key] else VersionChain(r.key, [], KeepForever)
    ensures ChainsRebuilt(h + [r], chains[r.key := Retained(Pushed(c, r.tensor.dtype, r.tensor.shape, r.attrs, hashes))])
  {
    hide LiveRecords;
    var after := chains[r.key := Retained(Pushed(c, r.tensor.dtype, r.tensor.shape, r.attrs, hashes))];
    assert r.key in chains ==> IdsFromZero(chains[r.key].versions, |LiveRecords(h, r.key)|);
    forall k ensures (k in after <==> |LiveRecords(h + [r], k)| > 0)
                     && (k in after ==> after[k].retention == KeepForever && IdsFromZero(after[k].versions, |LiveRecords(h + [r], k)|))
    {
      LiveSnoc(h, r, k);
    }
  }

  lemma RebuiltDead(h: seq<Record>, chains: Chains, r: Record)
    requires ChainsRebuilt(h, chains) && !r.live && LiveRecords(h, r.key) == []
    ensures ChainsRebuilt(h + [r], chains - {r.key})
  {
    hide LiveRecords;
    forall k ensures (k in chains - {r.key} <==> |LiveRecords(h + [r], k)| > 0)
                     && (k in chains - {r.key} ==>
                           && (chains - {r.key})[k].retention == KeepForever
                           && IdsFromZero((chains - {r.key})[k].versions, |LiveRecords(h + [r], k)|))
    {
      LiveSnoc(h, r, k);
    }
  }

  lemma RebuiltOk(h: seq<Record>, chains: Chains)
    requires ChainsRebuilt(h, chains)
    ensures ChainsOk(h, chains, map[]) && ChainsLive(h, chains)
  {
    hide LiveRecords;
    forall k ensures ChainOk(h, chains, map[], k) {
      assert k in chains ==> IdsFromZero(chains[k].versions, |LiveRecords(h, k)|);
    }
  }

  lemma NoChains()
    ensures ChainsRebuilt([], map[])
  {
  }

  lemma DeadBefore(env: Env, log: Bytes, entries: seq<TocEntry>, i: nat)
    requires i < |entries| && Readable(env, log, entries) && DeadFirst(HistoryOf(env, log, entries))
    requires entries[i].tombstone != 0
    ensures Readable(env, log, entries[..i])
    ensures LiveRecords(HistoryOf(env, log, entries[..i]), entries[i].key) == []
  {
    hide ReadTensor;
    HistoryPrefix(env, log, entries, i);
    var h := HistoryOf(env, log, entries);
    assert !h[i].live && forall j :: 0 <= j < i && h[j].key == h[i].key ==> !h[j].live;
    NoneLive(h[..i], entries[i].key);
  }

  /** The trees of all shards, put together from the table entry by entry. */
  method RebuildTrees(env: Env, count: u16, entries: seq<TocEntry>) returns (r: Outcome<seq<ArtRuns.Tree<ChunkRef>>>)
    requires count >= 1
    ensures AllSized(NoTrees<()>(count))
    ensures var t := Touched(NoTrees(count), TableTouches(env, count, entries));
            && (r.Panicked? <==> t.None?)
            && (r.Returned? ==> |r.result| == count && AllSized(r.result) && t == Some(ShapesOf(r.result)))
  {
    hide Touched, AllSized, ShapesOf;
    var trees := NoTrees<ChunkRef>(count);
    NoShapes(count);
    for i := 0 to |entries|
      invariant |trees| == count && AllSized(trees)
      invariant Touched(NoTrees(count), TableTouches(env, count, entries[..i])) == Some(ShapesOf(trees))
    {
      var entry := entries[i];
      ShapesSized(trees);
      EntryTouched(env, count, entries, i);
      if entry.tombstone == 0 {
        var done := TouchRefs(env, count, entry.key, entry.chunkRefs, trees);
        if done.Panicked? {
          TableStopped(env, count, entries, i);
          return Panicked;
        }
        trees := done.result;
      } else {
        trees := TreeRemoveKey(env, count, entry.key, trees);
      }
    }
    assert entries[..|entries|] == entries;
    return Returned(trees);
  }

  lemma NoShapes(count: nat)
    ensures ShapesOf(NoTrees<ChunkRef>(count)) == NoTrees<()>(count)
    ensures AllSized(NoTrees<()>(count)) && AllSized(NoTrees<ChunkRef>(count))
    ensures Touched(NoTrees(count), []) == Some(NoTrees<()>(count))
  {
  }

  /** One entry more of the table. */
  lemma EntryTouched(env: Env, count: u16, entries: seq<TocEntry>, i: nat)
    requires count >= 1 && i < |entries| && AllSized(NoTrees<()>(count))
    ensures Routed(count, EntryTouches(env, count, entries[i]))
    ensures var before := Touched(NoTrees(count), TableTouches(env, count, entries[..i]));
            Touched(NoTrees(count), TableTouches(env, count, entries[..i + 1]))
            == if before.None? then None else Touched(before.value, EntryTouches(env, count, entries[i]))
  {
    hide Touched, AllSized;
    assert entries[..i + 1][..i] == entries[..i];
    TouchedAppend(NoTrees(count), TableTouches(env, count, entries[..i]), EntryTouches(env, count, entries[i]));
  }

  /** An entry that stops the program stops the whole rebuilding. */
  lemma {:induction false} TableStopped(env: Env, count: u16, entries: seq<TocEntry>, i: nat)
    requires count >= 1 && i < |entries| && AllSized(NoTrees<()>(count))
    requires Touched(NoTrees(count), TableTouches(env, count, entries[..i + 1])).None?
    ensures Touched(NoTrees(count), TableTouches(env, count, entries)).None?
    decreases |entries| - i
  {
    hide Touched, AllSized;
    if i + 1 == |entries| {
      assert entries[..i + 1] == entries;
    } else {
      EntryTouched(env, count, entries, i + 1);
      TableStopped(env, count, entries, i + 1);
    }
  }

  /** `art.insert` on the tree of the key's shard. */
  method TreePutKey(env: Env, count: u16, key: Bytes, ref: ChunkRef, trees: seq<ArtRuns.Tree<ChunkRef>>)
      returns (r: Outcome<seq<ArtRuns.Tree<ChunkRef>>>)
    requires count >= 1 && |trees| == count && AllSized(trees) && AllSized(ShapesOf(trees))
    ensures var s := env.keyHash(key) % count;
            var step := ArtRuns.Step(ShapesOf(trees)[s], ArtRuns.Put(key, ()));
            && (r.Panicked? <==> step.Stopped?)
            && (r.Returned? ==> |r.result| == count && AllSized(r.result) && ShapesOf(r.result) == ShapesOf(trees)[s := step.tree])
  {
    hide Art.Insert, ArtShape.ShapeOf, Art.Sized;
    var s := ShardForKey(env, key, count);
    SizedEach(trees);
    ArtShape.ShapeStep(trees[s], ArtRuns.Put(key, ref));
    ArtRuns.TreeStaysSized(trees[s], key, Some(ref));
    if trees[s].None? {
      SetShape(trees, s, Some(Art.Leaf(key, ref)));
      return Returned(trees[s := Some(Art.Leaf(key, ref))]);
    }
    var inserted := ArtTree.InsertRec(trees[s].value, key, ref, 0);
    if inserted.Panic? {
      return Panicked;
    }
    SetShape(trees, s, Some(inserted.node));
    return Returned(trees[s := Some(inserted.node)]);
  }

  lemma SetShape(trees: seq<ArtRuns.Tree<ChunkRef>>, s: nat, t: ArtRuns.Tree<ChunkRef>)
    requires AllSized(trees) && s < |trees|
    ensures ArtRuns.TreeSized(t) ==> AllSized(trees[s := t])
    ensures ShapesOf(trees[s := t]) == ShapesOf(trees)[s := ArtShape.ShapeOf(t)]
  {
    hide ArtRuns.TreeSized, ArtShape.ShapeOf;
  }

  /** `art.remove`, which never stops. */
  method TreeRemoveKey(env: Env, count: u16, key: Bytes, trees: seq<ArtRuns.Tree<ChunkRef>>)
      returns (after: seq<ArtRuns.Tree<ChunkRef>>)
    requires count >= 1 && |trees| == count && AllSized(trees) && AllSized(ShapesOf(trees))
    ensures |after| == count && AllSized(after)
    ensures var touches := [Touch(env.keyHash(key) % count, ArtRuns.Del(key))];
            Routed(count, touches) && Touched(ShapesOf(trees), touches) == Some(ShapesOf(after))
  {
    hide Art.Remove, ArtShape.ShapeOf, Art.Sized, Touched;
    var s := ShardForKey(env, key, count);
    SizedEach(trees);
    var del: ArtRuns.Op<ChunkRef> := ArtRuns.Del(key);
    ArtShape.ShapeStep(trees[s], del);
    ArtRuns.TreeStaysSized<ChunkRef>(trees[s], key, None);
    TouchOne(ShapesOf(trees), Touch(s, ArtRuns.Del(key)));
    if trees[s].None? {
      SetShape(trees, s, None);
      assert trees[s := None] == trees;
      return trees;
    }
    if trees[s].value.Leaf? {
      if trees[s].value.key == key {
        SetShape(trees, s, None);
        return trees[s := None];
      }
      SetShape(trees, s, trees[s]);
      assert trees[s := trees[s]] == trees;
      return trees;
    }
    var m, prev := ArtTree.RemoveRec(trees[s].value, key, 0);
    SetShape(trees, s, Some(m));
    return trees[s := Some(m)];
  }

  /** The loop of `open` over the references of a live entry. */
  method TouchRefs(env: Env, count: u16, key: Bytes, refs: seq<ChunkRef>, trees: seq<ArtRuns.Tree<ChunkRef>>)
      returns (r: Outcome<seq<ArtRuns.Tree<ChunkRef>>>)
    requires count >= 1 && |trees| == count && AllSized(trees) && AllSized(ShapesOf(trees))
    ensures Routed(count, PutTouches(env, count, key, |refs|))
    ensures var t := Touched(ShapesOf(trees), PutTouches(env, count, key, |refs|));
            && (r.Panicked? <==> t.None?)
            && (r.Returned? ==> |r.result| == count && AllSized(r.result) && t == Some(ShapesOf(r.result)))
  {
    hide Touched, AllSized, ShapesOf, ArtRuns.Step;
    var s := ShardForKey(env, key, count);
    var now := trees;
    var i := 0;
    ghost var all := PutTouches(env, count, key, |refs|);
    assert all[..0] == [];
    assert Touched(ShapesOf(trees), []) == Some(ShapesOf(trees)) by { TouchNone(ShapesOf(trees)); }
    while i < |refs|
      invariant 0 <= i <= |refs| && |now| == count && AllSized(now) && AllSized(ShapesOf(now))
      invariant Touched(ShapesOf(trees), all[..i]) == Some(ShapesOf(now))
    {
      var one := TreePutKey(env, count, key, refs[i], now);
      TouchOne(ShapesOf(now), all[i]);
      TouchedAppend(ShapesOf(trees), all[..i], [all[i]]);
      assert all[..i + 1] == all[..i] + [all[i]];
      if one.Panicked? {
        TouchedAppend(ShapesOf(trees), all[..i + 1], all[i + 1..]);
        assert all == all[..i + 1] + all[i + 1..];
        return Panicked;
      }
      now := one.result;
      ShapesSized(now);
      i := i + 1;
    }
    assert all[..|refs|] == all;
    return Returned(now);
  }

  lemma TouchNone(shapes: Shapes)
    requires AllSized(shapes)
    ensures Touched(shapes, []) == Some(shapes)
  {
  }

  lemma DeadFirstEntries(env: Env, log: Bytes, es: seq<TocEntry>)
    requires Readable(env, log, es) && DeadFirst(HistoryOf(env, log, es))
    ensures DeadEntriesFirst(es)
  {
    hide ReadTensor;
    var h := HistoryOf(env, log, es);
    forall i, j | 0 <= i < j < |es| && es[i].key == es[j].key && es[j].tombstone != 0 ensures es[i].tombstone != 0 {
      assert h[i].key == h[j].key && !h[j].live;
    }
  }

  /** On the last commit and a clean tail, rebuilding the trees does not stop and leaves no hole. */
  lemma IntactNeverStops(env: Env, keys: iset<Bytes>, file: Bytes, count: u16, es: seq<TocEntry>)
    requires count >= 1 && TableOk(env, keys, file, es)
    ensures AllSized(NoTrees<()>(count)) && Routed(count, TableTouches(env, count, es)) && !TableStops(env, count, es)
    ensures var r := Touched(NoTrees(count), TableTouches(env, count, es)); r.Some? && AllPacked(r.value)
  {
    hide Touched, AllPacked, AllSized, ReadTensor;
    DeadFirstEntries(env, file, es);
    TableNeverStops(env, count, es);
  }

  class ShardedEngine {
    const env: Env
    const mode: OpenMode
    const shardCount: u16
    const chunkAlign: u32
    const io: Backend.MmapBackend
    const toc: Toc
    const content: ContentStore
    // the keys and blobs on which the two hashes are taken to be collision-free
    ghost const keys: iset<Bytes>
    ghost const blobs: iset<Bytes>
    // the shards' version chains, as one map, and the sum of their chunk counters
    var chains: Chains
    var chunkCount: nat
    var bytesWrittenSinceLast: nat
    // the shards' radix trees
    var trees: seq<ArtRuns.Tree<ChunkRef>>
    // hashes filed under chunks that a compaction cut off, by how much ids lead records since then,
    // and whether every chain has a live record again
    ghost var stale: set<u128>
    ghost var shift: map<Bytes, nat>
    ghost var settled: bool
    // the books, and the last commit known to be on disk
    ghost var leaked: multiset<u128>
    ghost var missed: multiset<u128>
    ghost var commitLen: nat
    ghost var commitEntries: seq<TocEntry>

    /** The archive file as one flat array. */
    ghost predicate StorageOk()
      reads this`stale, io, content
    {
      && Trusted(env, keys, blobs)
      && chunkAlign == CHUNK_ALIGN && shardCount >= 1 && io.mode == mode
      && io.Valid() && io.Dense()
      && |io.Content()| >= HEADER_SIZE
      && At(io.Content(), 0, HeaderFormat.HeaderBytes(shardCount, CHUNK_ALIGN))
      && (mode != ReadOnly ==> |io.Content()| % CHUNK_ALIGN == 0)
      && StoreSound(env, blobs, io.Content(), content.entries, stale)
    }

    /** The last commit: a prefix of the bytes on disk that recovers to `commitEntries`. */
    ghost predicate CommitOk()
      reads this`commitLen, this`commitEntries, io
    {
      commitLen > 0 ==>
        && HEADER_SIZE <= commitLen <= |io.durable|
        && (mode != ReadOnly ==> commitLen == |io.durable|)
        && Committed(io.durable[..commitLen], shardCount, commitEntries)
        && TableOk(env, keys, io.durable[..commitLen], commitEntries)
    }

    ghost predicate TreesOk()
      reads this`trees
    {
      |trees| == shardCount >= 1 && AllSized(trees) && AllSized(ShapesOf(trees))
    }

    ghost function Shapes(): Shapes
      reads this`trees
    {
      ShapesOf(trees)
    }

    /** What every method keeps, whatever a compaction has cut off. */
    ghost predicate Sound()
      reads this`stale, this`trees, io, toc, content
    {
      StorageOk() && TreesOk() && toc.Valid() && toc.xxh64 == env.keyHash
    }

    ghost predicate CoreValid()
      reads this, io, toc, content
    {
      && StorageOk()
      && CommitOk()
      && toc.Valid() && toc.xxh64 == env.keyHash
      && TableOk(env, keys, io.Content(), toc.entries)
      && ChainsOk(HistoryOf(env, io.Content(), toc.entries), chains, shift)
      && (settled ==> ChainsLive(HistoryOf(env, io.Content(), toc.entries), chains))
    }

    ghost predicate Valid()
      reads this, io, toc, content
    {
      CoreValid() && TreesOk() && Balanced(content.entries, Uses(chains), leaked, missed)
    }

    /** Everything put into the archive, with deleted records marked. */
    ghost function Records(): seq<Record>
      requires CoreValid()
      reads this, io, toc, content
    {
      HistoryOf(env, io.Content(), toc.entries)
    }

    /** The history that a crash now would recover to. */
    ghost function CommittedRecords(): seq<Record>
      requires CommitOk() && commitLen > 0
      reads this, io
    {
      HistoryOf(env, io.durable[..commitLen], commitEntries)
    }

    // ---------- creating ----------

    constructor (env: Env, mode: OpenMode, shardCount: u16, chunkAlign: u32,
                 io: Backend.MmapBackend, toc: Toc, content: ContentStore, chains: Chains,
                 trees: seq<ArtRuns.Tree<ChunkRef>>,
                 ghost keys: iset<Bytes>, ghost blobs: iset<Bytes>, ghost commitLen: nat)
      ensures this.env == env && this.mode == mode && this.shardCount == shardCount && this.chunkAlign == chunkAlign
      ensures this.io == io && this.toc == toc && this.content == content && this.chains == chains && this.trees == trees
      ensures this.keys == keys && this.blobs == blobs && leaked == multiset{} && missed == Uses(chains)
      ensures stale == {} && shift == map[] && settled && bytesWrittenSinceLast == 0 && chunkCount == 0
      ensures this.commitLen == commitLen && commitEntries == toc.entries
    {
      this.env, this.mode, this.shardCount, this.chunkAlign := env, mode, shardCount, chunkAlign;
      this.io, this.toc, this.content, this.chains, this.trees := io, toc, content, chains, trees;
      this.keys, this.blobs := keys, blobs;
      this.chunkCount, this.bytesWrittenSinceLast := 0, 0;
      this.leaked, this.missed := multiset{}, Uses(chains);
      this.stale, this.shift, this.settled := {}, map[], true;
      this.commitLen, this.commitEntries := commitLen, toc.entries;
    }

    /** `create` does not truncate: the header page is written over whatever the file holds. */
    static method Create(env: Env, file: Bytes, shards: Option<u16>, ghost keys: iset<Bytes>, ghost blobs: iset<Bytes>)
        returns (e: ShardedEngine)
      requires Trusted(env, keys, blobs)
      ensures fresh(e) && fresh(e.io) && fresh(e.toc) && fresh(e.content)
      ensures e.env == env && e.mode == ReadWrite && e.keys == keys && e.blobs == blobs
      ensures e.shardCount == (if shards == None then 4 else if shards.value > 1 then shards.value else 1)
      ensures |file| <= CHUNK_ALIGN || |file| % CHUNK_ALIGN == 0 ==>
                && e.Valid() && e.Records() == [] && e.toc.entries == []
                && |e.io.Content()| == (if |file| < CHUNK_ALIGN then CHUNK_ALIGN else |file|)
                && e.leaked == multiset{} && e.missed == multiset{} && e.chains == map[] && e.content.entries == map[]
                && e.stale == {} && e.shift == map[] && e.settled && e.Shapes() == NoTrees(e.shardCount)
                && e.bytesWrittenSinceLast == 0 && e.chunkCount == 0 && e.commitLen == 0
    {
      hide Trusted, HeaderPage, HeaderFormat.HeaderBytes, Backend.Patched, At;
      hide TableOk, HistoryOf, ChainsOk, Uses, StoreSound, AllSized, ShapesOf, NoTrees, Balanced, IndexOf;
      var count: u16 := if shards == None then 4 else if shards.value > 1 then shards.value else 1;
      var header := HeaderPage(count);
      var io := new Backend.MmapBackend(file, ReadWrite);
      HeaderOverwrites(file, count);
      var written := io.WriteAt(0, header);
      EmptyTable(env, keys, io.Content());
      NoShapes(count);
      var toc := new Toc.Build(env.keyHash, []);
      var content := new ContentStore();
      e := new ShardedEngine(env, ReadWrite, count, CHUNK_ALIGN, io, toc, content, map[], NoTrees(count), keys, blobs, 0);
      if |file| <= CHUNK_ALIGN || |file| % CHUNK_ALIGN == 0 {
        e.CreatedIsValid();
      }
    }

    /** A header page with nothing behind it that a scan or a table knows of. */
    lemma CreatedIsValid()
      requires Trusted(env, keys, blobs) && chunkAlign == CHUNK_ALIGN && shardCount >= 1 && io.mode == mode
      requires io.Valid() && io.Dense() && |io.Content()| >= HEADER_SIZE && |io.Content()| % CHUNK_ALIGN == 0
      requires At(io.Content(), 0, HeaderFormat.HeaderBytes(shardCount, CHUNK_ALIGN))
      requires content.entries == map[] && stale == {} && toc.Valid() && toc.xxh64 == env.keyHash && toc.entries == []
      requires TreesOk() && commitLen == 0 && chains == map[] && shift == map[] && leaked == missed == multiset{}
      ensures Valid() && Records() == []
    {
      hide Trusted, TableOk, ChainsOk, HistoryOf, At, HeaderFormat.HeaderBytes, Uses, IndexOf, StoreSound, Balanced, TreesOk;
      EmptyTable(env, keys, io.Content());
      BalanceFresh(Uses(chains));
      NothingStored(env, blobs, io.Content());
    }

    // ---------- opening ----------

    /**
     * Header, backward scan, table, truncation of the torn tail, trees and version chains. For any
     * bytes the outcome is that of `Recover`, unless rebuilding the trees from the table stops. Given
     * the last commit `file` with its table `es`, followed by a tail without a false footer, it does
     * not stop, and the result is a valid engine holding exactly the committed history, with an empty
     * content store and every retained reference still to be counted.
     */
    static method Open(env: Env, image: Bytes, mode: OpenMode, ghost keys: iset<Bytes>, ghost blobs: iset<Bytes>,
                       ghost file: Bytes, ghost count: u16, ghost es: seq<TocEntry>)
        returns (r: Outcome<Result<ShardedEngine, TpxError>>)
      ensures r.Panicked? <==> Recover(image).Success? && TableStops(env, Recover(image).value.shardCount, Recover(image).value.entries)
      ensures r.Returned? && r.result.Failure? ==> Recover(image) == Failure(r.result.error)
      ensures r.Returned? && r.result.Success? ==>
                && var e := r.result.value;
                && Recover(image).Success? && e.toc.entries == Recover(image).value.entries && RebuiltFrom(e.toc.entries, e.chains)
                && fresh(e) && fresh(e.io) && fresh(e.toc) && fresh(e.content)
      ensures Trusted(env, keys, blobs) && Intact(env, keys, image, file, count, es) ==>
                && r.Returned? && r.result.Success?
                && var e := r.result.value;
                && e.env == env && e.keys == keys && e.blobs == blobs && e.mode == mode && e.shardCount == count
                && e.Valid() && e.Records() == HistoryOf(env, file, es)
                && e.commitLen == |file| && e.CommittedRecords() == HistoryOf(env, file, es)
                && e.leaked == multiset{} && e.missed == Uses(e.chains) && e.content.entries == map[]
                && e.stale == {} && e.shift == map[] && e.settled && AllPacked(e.Shapes())
                && e.chunkCount == 0 && e.bytesWrittenSinceLast == 0
                && e.toc.entries == es && (mode != ReadOnly ==> e.io.Content() == file)
    {
      hide Trusted, HeaderFormat.HeaderBytes, Recover, TableOk, Committed, Intact, AllSized, ShapesOf, Touched, AllPacked;
      hide HistoryOf, ChainsOk, IndexOf, At, Uses, CleanTail, Readable, StoreSound, Balanced, ShardedEngine.Valid, RebuiltFrom;
      ghost var intact := Trusted(env, keys, blobs) && Intact(env, keys, image, file, count, es);
      if intact {
        OpenedIntact(env, keys, image, file, count, es);
      }
      var io := new Backend.MmapBackend(image, mode);
      var located := LocateTable(env, io);
      if located.Failure? {
        return Returned(Failure(located.error));
      }
      var (chunkAlign, shardCount, cleanLen, toc) := located.value;
      if io.logicalLen > cleanLen && (mode == ReadWrite || mode == OpenMode.Append) {
        io.Truncate(cleanLen);
      }
      var sc: u16 := if shardCount > 1 then shardCount else 1;
      var trees := RebuildTrees(env, sc, toc.entries);
      if trees.Panicked? {
        if intact {
          IntactNeverStops(env, keys, file, sc, es);
        }
        return Panicked;
      }
      if intact {
        IntactNeverStops(env, keys, file, sc, es);
        assert io.Content() == if mode == ReadOnly then image else file;
      }
      var e := Assemble(env, mode, sc, chunkAlign, io, toc, trees.result, keys, blobs, cleanLen, file, intact);
      return Returned(Success(e));
    }

    /** The second half of `open`: version chains, an empty content store and the engine around them. */
    static method Assemble(env: Env, mode: OpenMode, sc: u16, chunkAlign: u32, io: Backend.MmapBackend, toc: Toc,
                           trees: seq<ArtRuns.Tree<ChunkRef>>, ghost keys: iset<Bytes>, ghost blobs: iset<Bytes>,
                           ghost cleanLen: nat, ghost file: Bytes, ghost intact: bool) returns (e: ShardedEngine)
      requires |trees| == sc >= 1 && AllSized(trees)
      requires intact ==>
                 && Trusted(env, keys, blobs) && chunkAlign == CHUNK_ALIGN && io.mode == mode && toc.Valid() && toc.xxh64 == env.keyHash
                 && io.Valid() && io.Dense() && file <= io.Content() && HEADER_SIZE <= |file| == cleanLen
                 && At(io.Content(), 0, HeaderFormat.HeaderBytes(sc, CHUNK_ALIGN))
                 && (mode != ReadOnly ==> |io.Content()| % CHUNK_ALIGN == 0 && io.durable == file)
                 && file <= io.durable
                 && Committed(file, sc, toc.entries) && TableOk(env, keys, file, toc.entries)
      ensures fresh(e) && fresh(e.content) && e.io == io && e.toc == toc && e.trees == trees
      ensures e.env == env && e.mode == mode && e.shardCount == sc && e.keys == keys && e.blobs == blobs
      ensures e.commitLen == cleanLen && e.leaked == multiset{} && e.missed == Uses(e.chains) && e.content.entries == map[]
      ensures e.stale == {} && e.shift == map[] && e.settled && e.chunkCount == 0 && e.bytesWrittenSinceLast == 0
      ensures RebuiltFrom(toc.entries, e.chains)
      ensures intact ==>
                && Readable(env, file, toc.entries) && e.Valid()
                && e.Records() == e.CommittedRecords() == HistoryOf(env, file, toc.entries)
    {
      hide Trusted, HeaderFormat.HeaderBytes, TableOk, Committed, AllSized, ShapesOf;
      hide HistoryOf, ChainsOk, ChainsLive, IndexOf, At, Uses, Readable, StoreSound, Balanced, ShardedEngine.Valid, ChainsRebuilt, RebuiltFrom;
      var chains := RebuildChains(toc.entries, env, file);
      var content := new ContentStore();
      e := new ShardedEngine(env, mode, sc, chunkAlign, io, toc, content, chains, trees, keys, blobs, cleanLen);
      ShapesSized(trees);
      if intact {
        TableParts(env, keys, file, toc.entries);
        e.OpenedIsValid(file);
      }
    }

    /** What opening on a commit leaves in the fields is a valid engine with the committed history. */
    lemma OpenedIsValid(file: Bytes)
      requires Trusted(env, keys, blobs) && chunkAlign == CHUNK_ALIGN && shardCount >= 1 && io.mode == mode
      requires io.Valid() && io.Dense() && file <= io.Content() && HEADER_SIZE <= |file|
      requires At(io.Content(), 0, HeaderFormat.HeaderBytes(shardCount, CHUNK_ALIGN))
      requires mode != ReadOnly ==> |io.Content()| % CHUNK_ALIGN == 0
      requires content.entries == map[] && stale == {} && shift == map[] && toc.Valid() && toc.xxh64 == env.keyHash && TreesOk()
      requires commitLen == |file| <= |io.durable| && io.durable[..commitLen] == file && commitEntries == toc.entries
      requires mode != ReadOnly ==> io.durable == file
      requires Committed(file, shardCount, toc.entries) && TableOk(env, keys, file, toc.entries)
      requires Readable(env, file, toc.entries) && ChainsOk(HistoryOf(env, file, toc.entries), chains, map[])
      requires ChainsLive(HistoryOf(env, file, toc.entries), chains)
      requires leaked == multiset{} && missed == Uses(chains)
      ensures Valid() && Records() == CommittedRecords() == HistoryOf(env, file, toc.entries)
    {
      hide Trusted, TableOk, ChainsOk, ChainsLive, HistoryOf, Readable, At, HeaderFormat.HeaderBytes, Committed, Uses, IndexOf, StoreSound, Balanced;
      TableGrows(env, keys, file, io.Content(), toc.entries);
      TableParts(env, keys, io.Content(), toc.entries);
      BalanceFresh(Uses(chains));
      NothingStored(env, blobs, io.Content());
    }

    /** The first half of `open`: read and parse until the table is found, or fail as `Recover` does. */
    static method LocateTable(env: Env, io: Backend.MmapBackend) returns (r: Result<(u32, u16, nat, Toc), TpxError>)
      requires io.Valid() && io.Dense()
      modifies io`file, io`writeBuffer, io`writeBufferStart
      ensures io.Valid() && io.Dense() && io.Content() == old(io.Content())
      ensures r.Failure? ==> Recover(io.Content()) == Failure(r.error)
      ensures r.Success? ==>
                && Recover(io.Content()) == Success(Recovered(r.value.0, r.value.1, r.value.3.entries, r.value.2))
                && fresh(r.value.3) && r.value.3.Valid() && r.value.3.xxh64 == env.keyHash
                && r.value.2 <= |io.Content()|
    {
      hide HeaderFormat.ParseHeader, FooterFormat.Scan, ParseToc, IndexOf, FooterFormat.Probe, FooterFormat.Multiple;
      ghost var image := io.Content();
      var fileLen := io.Len();
      if fileLen < HEADER_SIZE {
        return Failure(BufferTooSmall(HEADER_SIZE, fileLen));
      }
      var headerBytes := io.ReadAt(0, HEADER_SIZE);
      assert headerBytes.value == image[..HEADER_SIZE];
      var header := HeaderFormat.ParseHeader(headerBytes.value);
      if header.Failure? {
        return Failure(header.error);
      }
      var full := io.ReadAt(0, fileLen);
      assert full.value == image;
      var found := FooterFormat.ScanForFooter(full.value, fileLen, header.value.0);
      if found.None? {
        return Failure(CorruptArchive);
      }
      FooterFormat.ScanIsLatest(image, |image|, header.value.0);
      var (footer, footerOffset) := found.value;
      ProbePoints(image, footerOffset, footer);
      var tocLen := footerOffset - footer.tocOffset;
      var tocBytes := io.ReadAt(footer.tocOffset, tocLen);
      assert tocBytes.value == image[footer.tocOffset..footerOffset];
      var toc := TocIndex.Deserialize(env.keyHash, tocBytes.value);
      if toc.Failure? {
        return Failure(toc.error);
      }
      return Success((header.value.0, header.value.1, footerOffset + FOOTER_SIZE, toc.value));
    }

    // ---------- writing chunks ----------

    /** `io.append` of an aligned block: the log grows by it, and everything stored stays readable. */
    method AppendAligned(bytes: Bytes) returns (offset: nat)
      requires StorageOk() && mode != ReadOnly && |bytes| % CHUNK_ALIGN == 0
      modifies io`file, io`writeBuffer, io`writeBufferStart, io`logicalLen
      ensures StorageOk() && io.Content() == old(io.Content()) + bytes && offset == |old(io.Content())|
    {
      hide Trusted, StoreSound, HeaderFormat.HeaderBytes, At;
      ghost var log := io.Content();
      var appended := io.Append(bytes);
      offset := appended.value;
      AppendedChunk(log, bytes);
      SoundGrows(env, blobs, log, io.Content(), content.entries, stale);
    }

    /**
     * Content store check: a hit takes one more reference. It reads back this very segment, unless its
     * chunk was cut off by a compaction.
     */
    method Dedup(ghost segment: Bytes, hash: u128) returns (r: Option<ChunkRef>)
      requires StorageOk() && segment in blobs && hash == env.contentHash(segment)
      modifies content
      ensures StorageOk() && (r.Some? <==> hash in old(content.entries))
      ensures r.Some? ==>
                && r.value == RefOf(old(content.entries)[hash])
                && Shifted(old(content.entries), content.entries, multiset{hash})
                && Filed(old(content.entries), content.entries, {hash})
                && (hash !in stale ==> Holds(env, io.Content(), r.value, segment))
      ensures r.None? ==> content.entries == old(content.entries)
    {
      hide Holds, Lawful, Injective, HeaderFormat.HeaderBytes, StoreSound, Shifted;
      var existing := content.Lookup(hash);
      if existing.None? {
        return None;
      }
      if hash !in stale {
        SoundHit(env, blobs, io.Content(), content.entries, stale, segment);
      }
      CountedOnce(content.entries, hash);
      SoundRecount(env, blobs, io.Content(), content.entries, stale, hash, Wrap32(existing.value.refcount as int + 1));
      var added := content.AddRef(hash);
      return Some(ChunkRef(existing.value.shardId, existing.value.chunkOffset, existing.value.chunkLen));
    }

    /** One segment: a hit takes a reference, a miss appends the chunk and files it. */
    method StoreSegment(segment: Bytes, hash: u128, shardId: u16, dtype: DTypeId) returns (r: ChunkRef)
      requires StorageOk() && mode != ReadOnly
      requires 0 < |segment| <= MAX_SEGMENT && segment in blobs && hash == env.contentHash(segment)
      modifies this`bytesWrittenSinceLast, content, io`file, io`writeBuffer, io`writeBufferStart, io`logicalLen
      ensures StorageOk() && old(io.Content()) <= io.Content()
      ensures hash !in stale ==> Holds(env, io.Content(), r, segment)
      ensures Shifted(old(content.entries), content.entries, multiset{hash})
      ensures Filed(old(content.entries), content.entries, {hash})
      ensures hash in old(content.entries) ==>
                r == RefOf(old(content.entries)[hash]) && io.Content() == old(io.Content())
      ensures hash !in old(content.entries) ==>
                r == ChunkRef(shardId, |old(io.Content())|, |Image(env, segment)|)
                && io.Content() == old(io.Content()) + Image(env, segment)
                && hash in content.entries && content.entries[hash].chunkOffset == |old(io.Content())|
      ensures hash in content.entries && r == RefOf(content.entries[hash])
      ensures bytesWrittenSinceLast - old(bytesWrittenSinceLast) == |io.Content()| - |old(io.Content())|
    {
      hide Holds, Lawful, Injective, Image, HeaderFormat.HeaderBytes, StoreSound;
      var existing := Dedup(segment, hash);
      if existing.Some? {
        return existing.value;
      }
      ghost var log := io.Content();
      var chunkBytes := BuildChunk(env, segment, dtype);
      ImageSize(env, segment);
      var appendOffset := AppendAligned(chunkBytes);
      var chunkLen := |chunkBytes|;
      r := ChunkRef(shardId, appendOffset, chunkLen);
      AppendedChunk(log, chunkBytes);
      ImageHolds(env, io.Content(), shardId, appendOffset, segment);
      var entry := ContentEntry(shardId, appendOffset, chunkLen, 1);
      SoundInsert(env, blobs, io.Content(), content.entries, stale, entry, segment);
      FiledOnce(content.entries, hash, entry);
      var inserted := content.Insert(hash, entry);
      bytesWrittenSinceLast := bytesWrittenSinceLast + chunkLen;
    }

    lemma AppendedChunk(log: Bytes, chunk: Bytes)
      ensures At(log + chunk, |log|, chunk)
      ensures log <= log + chunk
      ensures |log| % CHUNK_ALIGN == 0 && |chunk| % CHUNK_ALIGN == 0 ==> |log + chunk| % CHUNK_ALIGN == 0
      ensures forall piece :: At(log, 0, piece) ==> At(log + chunk, 0, piece)
    {
      assert (log + chunk)[|log|..] == chunk;
      forall piece | At(log, 0, piece) ensures At(log + chunk, 0, piece) {
        assert (log + chunk)[0..|piece|] == log[0..|piece|];
      }
    }

    /**
     * Every segment of `data`, in order: the references that read it back, unless one of its chunks was
     * cut off, and the hashes used. If every segment is filed, nothing is written.
     */
    method StoreAll(data: Bytes, shardId: u16, dtype: DTypeId) returns (refs: seq<ChunkRef>, hashes: seq<u128>)
      requires StorageOk() && mode != ReadOnly && SegmentsIn(env, blobs, data)
      modifies this`bytesWrittenSinceLast, content, io`file, io`writeBuffer, io`writeBufferStart, io`logicalLen
      ensures StorageOk() && old(io.Content()) <= io.Content()
      ensures hashes == SegmentHashes(env, data) && |refs| == |hashes|
      ensures Fresh(hashes, stale) ==> HoldsAll(env, io.Content(), refs, data)
      ensures Shifted(old(content.entries), content.entries, multiset(hashes))
      ensures Filed(old(content.entries), content.entries, HashSet(hashes))
      ensures FirstAt(hashes, old(content.entries), content.entries, |old(io.Content())|)
      ensures AllFiled(hashes, old(content.entries)) ==>
                refs == FiledRefs(hashes, old(content.entries)) && io.Content() == old(io.Content())
      ensures Recorded(hashes, refs, old(content.entries), content.entries, shardId, |old(io.Content())|, |io.Content()|)
      ensures bytesWrittenSinceLast - old(bytesWrittenSinceLast) == |io.Content()| - |old(io.Content())|
    {
      hide Trusted, Holds, HoldsAll, StoreSound, HeaderFormat.HeaderBytes, At, Cdc.SegmentsFrom, Cdc.CutPoint, Shifted, SegmentsIn, Image;
      hide SegmentHashes, RefOf, Stored, Filed, FirstAt, Recorded, Fresh, AllFiled, FiledRefs;
      var segments := Cdc.CdcChunk(data, Cdc.DEFAULT_CONFIG, env.contentHash);
      CdcProperties.SegmentsTile(data, 0, Cdc.DEFAULT_CONFIG, env.contentHash);
      refs, hashes := [], [];
      ghost var off := 0;
      ghost var all, first, start := SegmentHashes(env, data), content.entries, io.Content();
      HashesAre(env, data);
      StoredNone(env, first, stale, start, shardId);
      assert segments[0..] == segments && data[..0] == [];
      for i := 0 to |segments|
        invariant StorageOk() && 0 <= off <= |data| && CdcProperties.Tiles(data, off, segments[i..], env.contentHash)
        invariant hashes == all[..i] && Stored(env, first, content.entries, stale, start, io.Content(), data[..off], hashes, refs, shardId)
        invariant bytesWrittenSinceLast - old(bytesWrittenSinceLast) == |io.Content()| - |start|
      {
        ghost var log, mid := io.Content(), content.entries;
        var seg := segments[i];
        assert segments[i..][0] == seg && segments[i..][1..] == segments[i + 1..];
        var segment := data[seg.offset..seg.offset + seg.len];
        SegmentUsable(env, blobs, data, i);
        var r := StoreSegment(segment, seg.contentHash, shardId, dtype);
        StoredStep(env, first, mid, content.entries, stale, start, log, io.Content(), data[..off], segment,
                   hashes, refs, seg.contentHash, r, shardId);
        hashes, refs := hashes + [seg.contentHash], refs + [r];
        assert data[..off] + segment == data[..off + seg.len];
        assert all[..i + 1] == all[..i] + [all[i]];
        off := off + seg.len;
      }
      assert segments[|segments|..] == [];
      assert data[..off] == data;
      assert all[..|segments|] == all;
      StoredAll(env, first, content.entries, stale, start, io.Content(), data, hashes, refs, shardId);
    }

    // ---------- recording a version ----------

    /** `art.insert` with the first reference; data without segments leaves the tree alone. */
    method InsertKey(key: Bytes, refs: seq<ChunkRef>, ghost data: Bytes) returns (ok: bool)
      requires TreesOk() && (refs == [] <==> data == [])
      modifies this`trees, this`chunkCount
      ensures TreesOk()
      ensures !ok ==> trees == old(trees)
      ensures chunkCount == old(chunkCount) + if ok then |refs| else 0
      ensures var ts := KeyTouches(env, shardCount, key, data);
              && Routed(shardCount, ts)
              && (ok <==> Touched(old(Shapes()), ts).Some?)
              && (ok ==> Touched(old(Shapes()), ts) == Some(Shapes()))
    {
      hide AllSized, ShapesOf, ArtRuns.Step, Touched, KeyTouches;
      ghost var ts := KeyTouches(env, shardCount, key, data);
      OneTouch(ShapesOf(trees), env, shardCount, key, data);
      if |refs| == 0 {
        return true;
      }
      var after := TreePutKey(env, shardCount, key, refs[0], trees);
      if after.Panicked? {
        return false;
      }
      ShapesSized(after.result);
      trees := after.result;
      chunkCount := chunkCount + |refs|;
      return true;
    }

    /** Gives back one reference per evicted hash; a hash with no counter is a leak on the books. */
    method ReleaseAll(evicted: seq<u128>, ghost kept: multiset<u128>, ghost good: bool)
      requires StorageOk()
      requires good ==> Balanced(content.entries, kept + multiset(evicted), leaked, missed)
      modifies content, this`leaked
      ensures StorageOk() && Filed(old(content.entries), content.entries, {})
      ensures leaked == old(leaked) + LeakOf(evicted, content.entries.Keys)
      ensures good ==> Balanced(content.entries, kept, leaked, missed)
      ensures good && missed == multiset{} ==> leaked == old(leaked)
    {
      hide Trusted, StoreSound, HeaderFormat.HeaderBytes, At, Balanced, LeakOf;
      assert evicted[0..] == evicted && LeakOf(evicted[..0], content.entries.Keys) == multiset{} by { LeakNone(evicted, content.entries.Keys); }
      ghost var filed := content.entries.Keys;
      for i := 0 to |evicted|
        invariant StorageOk() && Filed(old(content.entries), content.entries, {}) && content.entries.Keys == filed
        invariant leaked == old(leaked) + LeakOf(evicted[..i], filed)
        invariant good ==> Balanced(content.entries, kept + multiset(evicted[i..]), leaked, missed)
        invariant good && missed == multiset{} ==> leaked == old(leaked)
      {
        ReleaseOne(evicted, i, kept, good);
        LeakStep(evicted, i, filed);
      }
      assert evicted[..|evicted|] == evicted;
      assert kept + multiset(evicted[|evicted|..]) == kept;
    }

    method ReleaseOne(evicted: seq<u128>, i: nat, ghost kept: multiset<u128>, ghost good: bool)
      requires StorageOk() && i < |evicted|
      requires good ==> Balanced(content.entries, kept + multiset(evicted[i..]), leaked, missed)
      modifies content, this`leaked
      ensures StorageOk() && Filed(old(content.entries), content.entries, {}) && content.entries.Keys == old(content.entries).Keys
      ensures leaked == old(leaked) + if evicted[i] in content.entries then multiset{} else multiset{evicted[i]}
      ensures good ==> Balanced(content.entries, kept + multiset(evicted[i + 1..]), leaked, missed)
      ensures good && missed == multiset{} ==> leaked == old(leaked)
    {
      hide Trusted, StoreSound, HeaderFormat.HeaderBytes, At, Balanced, LeakOf, Filed;
      var h := evicted[i];
      ghost var rest := kept + multiset(evicted[i + 1..]);
      assert evicted[i..] == [h] + evicted[i + 1..];
      assert kept + multiset(evicted[i..]) == rest + multiset{h};
      if good {
        BalanceRelease(content.entries, rest, h, leaked, missed);
      }
      if h in content.entries {
        SoundRecount(env, blobs, io.Content(), content.entries, stale, h, Wrap32(Count(content.entries, h) as int - 1));
      } else {
        leaked := leaked + multiset{h};
        FiledSame(content.entries);
      }
      var released := content.Release(h);
    }

    /**
     * Appends the new version to the key's chain, evicts by its policy, and adds the table entry. With
     * references that read back as `data` in a valid engine, the history grows by this record.
     */
    method CommitVersion(key: Bytes, dtype: DTypeId, shape: seq<u32>, attrs: AttrMap, refs: seq<ChunkRef>,
                         hashes: seq<u128>, policy: Option<RetentionPolicy>, ghost data: Bytes, ghost rest: multiset<u128>,
                         ghost good: bool)
      requires Sound() && |toc.entries| + 1 < U32_LIMIT
      requires key in keys && Utf8.Valid(key) && AllStorable(attrs)
      requires good ==> CoreValid() && HoldsAll(env, io.Content(), refs, data)
      requires good ==> Balanced(content.entries, Uses(chains) + multiset(hashes) + rest, leaked, missed)
      modifies this`chains, this`leaked, content, toc
      ensures Sound() && Filed(old(content.entries), content.entries, {})
      ensures toc.entries == old(toc.entries) + [TocEntry(env.keyHash(key), key, dtype, shape, attrs, refs, 0)]
      ensures chains == old(chains)[key := Chained(old(chains), key, policy, dtype, shape, attrs, hashes)]
      ensures leaked == old(leaked) + LeakOf(Evicting(old(chains), key, policy, dtype, shape, attrs, hashes), content.entries.Keys)
      ensures good ==>
                && CoreValid() && Records() == old(Records()) + [Record(key, Tensor(dtype, shape, data), attrs, true)]
                && Balanced(content.entries, Uses(chains) + rest, leaked, missed)
                && (missed == multiset{} ==> leaked == old(leaked))
    {
      hide Trusted, StoreSound, HeaderFormat.HeaderBytes, At, Balanced, TableOk, ChainsOk, ChainsLive, HistoryOf, Uses, Committed;
      hide Chained, Evicting, Utf8.Valid, AllStorable, ReadTensor, IndexOf, HoldsAll, TreesOk, Filed, LeakOf;
      ghost var log, table := io.Content(), toc.entries;
      var entry := TocEntry(env.keyHash(key), key, dtype, shape, attrs, refs, 0);
      PushVersion(key, dtype, shape, attrs, hashes, policy, Record(key, Tensor(dtype, shape, data), attrs, true), rest, good);
      if good {
        EntryReads(env, log, entry, data);
        TableAppend(env, keys, log, table, entry);
      }
      toc.AddEntry(entry);
    }

    /** The chain's side of a put: the version is pushed and what the policy evicts is released. */
    method PushVersion(key: Bytes, dtype: DTypeId, shape: seq<u32>, attrs: AttrMap, hashes: seq<u128>,
                       policy: Option<RetentionPolicy>, ghost r: Record, ghost rest: multiset<u128>, ghost good: bool)
      requires StorageOk() && r.key == key && r.live && r.tensor.dtype == dtype && r.tensor.shape == shape && r.attrs == attrs
      requires good ==> CoreValid() && Balanced(content.entries, Uses(chains) + multiset(hashes) + rest, leaked, missed)
      modifies this`chains, this`leaked, content
      ensures StorageOk() && Filed(old(content.entries), content.entries, {})
      ensures chains == old(chains)[key := Chained(old(chains), key, policy, dtype, shape, attrs, hashes)]
      ensures leaked == old(leaked) + LeakOf(Evicting(old(chains), key, policy, dtype, shape, attrs, hashes), content.entries.Keys)
      ensures good ==>
                && Balanced(content.entries, Uses(chains) + rest, leaked, missed) && (missed == multiset{} ==> leaked == old(leaked))
                && ChainsOk(old(Records()) + [r], chains, shift) && (settled ==> ChainsLive(old(Records()) + [r], chains))
    {
      hide Trusted, StoreSound, HeaderFormat.HeaderBytes, At, Balanced, TableOk, ChainsOk, ChainsLive, HistoryOf, Uses, Committed;
      hide Retained, Evicted, Pushed, IndexOf, TreesOk, Filed, LeakOf, KeepsLast, NextId;
      ghost var before := chains;
      var chain := if key in chains then chains[key] else VersionChain(key, [], KeepLatest);
      if policy.Some? {
        chain := chain.(retention := policy.value);
      }
      var chain', id, evicted := VersionChainModel.Append(chain, dtype, shape, attrs, hashes);
      assert chain == Pushing(chains, key, policy);
      if good {
        ChainsPut(Records(), chains, shift, r, chain, hashes);
        if settled {
          ChainsLivePut(Records(), chains, r, chain');
        }
        CommitUses(chains, key, chain, chain', dtype, shape, attrs, hashes, evicted, rest);
      }
      chains := chains[key := chain'];
      ReleaseAll(evicted, Uses(chains) + rest, good);
    }

    // ---------- checkpoints ----------

    /** The table can be committed: every entry fits its record, and offsets fit 64 bits. */
    ghost predicate Committable()
      requires io.Valid()
      reads this, io, toc
    {
      |io.Content()| < U64_LIMIT && AllFit(toc.entries)
    }

    /** All of the current history is on disk, and committed if it can be. */
    ghost predicate FreshCommit()
      requires CoreValid()
      reads this, io, toc, content
    {
      && io.durable == io.Content() && commitEntries == toc.entries
      && commitLen == if Committable() then |io.Content()| else 0
    }

    /** A fresh commit recovers to exactly the current history. */
    lemma FreshCommitIsCurrent()
      requires CoreValid() && FreshCommit() && Committable()
      ensures commitLen > 0 && CommittedRecords() == Records()
    {
      assert io.durable[..commitLen] == io.Content();
    }

    /** What an operation may do to the last commit: keep it, or commit the whole history anew. */
    ghost predicate CommitStep(len: nat, durable: Bytes, es: seq<TocEntry>)
      reads this, io, toc, content
    {
      || (&& commitLen == len && commitEntries == es
          && (len <= |durable| ==> len <= |io.durable| && io.durable[..len] == durable[..len]))
      || (CoreValid() && FreshCommit())
    }

    /** Appends one aligned block and syncs: more bytes on disk, the same history, no commit yet. */
    method AppendSynced(block: Bytes, ghost good: bool)
      requires Sound() && mode != ReadOnly && |block| % CHUNK_ALIGN == 0 && commitLen == 0
      requires good ==> Valid()
      modifies io
      ensures Sound() && (good ==> Valid() && Records() == old(Records()))
      ensures io.Content() == old(io.Content()) + block && io.durable == io.Content()
    {
      hide Trusted, StoreSound, HeaderFormat.HeaderBytes, At, Balanced, TableOk, ChainsOk, ChainsLive, HistoryOf, Uses, Committed, IndexOf;
      hide TreesOk, StoreSound;
      ghost var log := io.Content();
      var offset := AppendAligned(block);
      io.Sync();
      if good {
        TableGrows(env, keys, log, io.Content(), toc.entries);
      }
    }

    /** Table, padding and footer go out as one aligned block, then everything is synced. */
    method ExecuteCheckpoint(isFinal: bool, ghost good: bool) returns (r: Result<FooterFormat.Footer, TpxError>)
      requires Sound() && (good ==> Valid())
      modifies this`bytesWrittenSinceLast, this`commitLen, this`commitEntries, io
      ensures Sound() && (good ==> Valid() && Records() == old(Records()))
      ensures mode == ReadOnly ==> r == Failure(ReadOnlyMode) && io.Content() == old(io.Content())
      ensures mode == ReadOnly ==>
                && commitLen == old(commitLen) && commitEntries == old(commitEntries) && io.durable == old(io.durable)
                && bytesWrittenSinceLast == old(bytesWrittenSinceLast)
      ensures mode != ReadOnly ==>
                && r.Success? && io.Content() == old(io.Content()) + Block(EncodeToc(toc.entries), r.value)
                && io.durable == io.Content() && (good ==> FreshCommit())
                && r.value == CheckpointFooter(env, toc.entries, chunkCount, |old(io.Content())|)
                                .(magicEnd := if isFinal then [0x31, 0x58, 0x50, 0x54] else [0x31, 0x58, 0x50, 0x43])
                && bytesWrittenSinceLast == 0
    {
      hide Trusted, StoreSound, HeaderFormat.HeaderBytes, At, Balanced, TableOk, ChainsOk, ChainsLive, HistoryOf, Uses, Committed;
      hide EncodeToc, IndexOf, Block, AllFit, FooterFormat.Serialize, CommitOk, TreesOk, StoreSound;
      var tocBytes := toc.Serialize();
      var tocOffset := io.Len();
      var checksum := env.tocChecksum(tocBytes, tocOffset);
      var footer := FooterFormat.NewFooter(tocOffset % 0x1_0000_0000_0000_0000, Wrap32(chunkCount), checksum, !isFinal);
      var block := Block(tocBytes, footer);
      if mode == ReadOnly {
        return Failure(ReadOnlyMode);
      }
      WriteTable(block, footer, good);
      return Success(footer);
    }

    /** The block is appended and synced, and is the new commit if the table fits. */
    method WriteTable(block: Bytes, ghost footer: FooterFormat.Footer, ghost good: bool)
      requires Sound() && mode != ReadOnly && (good ==> Valid()) && block == Block(EncodeToc(toc.entries), footer)
      requires footer.tocOffset == |io.Content()| % 0x1_0000_0000_0000_0000
      requires footer.magicEnd == MAGIC_END_FINAL || footer.magicEnd == MAGIC_END_CHECKPOINT
      modifies this`bytesWrittenSinceLast, this`commitLen, this`commitEntries, io
      ensures Sound() && (good ==> Valid() && Records() == old(Records()) && FreshCommit())
      ensures io.Content() == old(io.Content()) + block && io.durable == io.Content() && bytesWrittenSinceLast == 0
    {
      hide Trusted, StoreSound, HeaderFormat.HeaderBytes, At, Balanced, TableOk, ChainsOk, ChainsLive, HistoryOf, Uses, Committed;
      hide EncodeToc, IndexOf, Block, AllFit, FooterFormat.Serialize, CommitOk, TreesOk, StoreSound;
      ghost var log := io.Content();
      BlockSize(EncodeToc(toc.entries), footer);
      commitLen := 0;
      assert CommitOk() by { NoCommit(); }
      AppendSynced(block, good);
      bytesWrittenSinceLast := 0;
      commitEntries := toc.entries;
      if good && Committable() {
        TableCommits(env, keys, log, shardCount, toc.entries, footer);
        commitLen := |io.Content()|;
      }
      WholeCommit();
    }

    lemma NoCommit()
      requires commitLen == 0
      ensures CommitOk()
    {
    }

    /** A commit of everything on disk, or none, is in order. */
    lemma WholeCommit()
      requires commitLen > 0 ==> HEADER_SIZE <= commitLen == |io.durable| && Committed(io.durable, shardCount, commitEntries)
      requires commitLen > 0 ==> TableOk(env, keys, io.durable, commitEntries)
      ensures CommitOk()
    {
      hide Committed, TableOk;
      if commitLen > 0 {
        assert io.durable[..commitLen] == io.durable;
      }
    }

    /** Enough bytes, or enough time with at least one byte, since the last checkpoint. */
    function ShouldCheckpoint(elapsed: nat): bool
      reads this
    {
      || bytesWrittenSinceLast >= CHECKPOINT_INTERVAL_BYTES
      || (elapsed >= CHECKPOINT_INTERVAL_MS && bytesWrittenSinceLast > 0)
    }

    // ---------- put and delete ----------

    /** The segments of `data` stored; in a valid engine, everything but the table knows of them. */
    method StoreData(data: Bytes, shardId: u16, dtype: DTypeId, ghost good: bool) returns (refs: seq<ChunkRef>, hashes: seq<u128>)
      requires Sound() && mode != ReadOnly && SegmentsIn(env, blobs, data)
      requires good ==> Valid() && Fresh(SegmentHashes(env, data), stale)
      modifies this`bytesWrittenSinceLast, content, io`file, io`writeBuffer, io`writeBufferStart, io`logicalLen
      ensures Sound() && old(io.Content()) <= io.Content()
      ensures hashes == SegmentHashes(env, data) && |refs| == |hashes|
      ensures Filed(old(content.entries), content.entries, HashSet(hashes))
      ensures FirstAt(hashes, old(content.entries), content.entries, |old(io.Content())|)
      ensures AllFiled(hashes, old(content.entries)) ==>
                refs == FiledRefs(hashes, old(content.entries)) && io.Content() == old(io.Content())
      ensures Recorded(hashes, refs, old(content.entries), content.entries, shardId, |old(io.Content())|, |io.Content()|)
      ensures bytesWrittenSinceLast - old(bytesWrittenSinceLast) == |io.Content()| - |old(io.Content())|
      ensures Fresh(hashes, stale) ==> HoldsAll(env, io.Content(), refs, data)
      ensures good ==>
                && CoreValid() && Records() == old(Records()) && HoldsAll(env, io.Content(), refs, data)
                && Balanced(content.entries, Uses(chains) + multiset(hashes), leaked, missed)
    {
      hide Trusted, StoreSound, HeaderFormat.HeaderBytes, At, Balanced, TableOk, ChainsOk, ChainsLive, HistoryOf, Uses, Committed;
      hide FirstAt, HoldsAll, SegmentsIn, Shifted, IndexOf, TreesOk, StoreSound, Filed, SegmentHashes, Fresh, AllFiled, Recorded;
      ghost var log, before := io.Content(), content.entries;
      refs, hashes := StoreAll(data, shardId, dtype);
      if good {
        TableGrows(env, keys, log, io.Content(), toc.entries);
        BalanceShift(before, content.entries, Uses(chains), multiset(hashes), leaked, missed);
      }
    }

    /**
     * The put as the code runs it, in any sound engine: it stops, with nothing recorded, if and only if
     * the insert into the shard's tree does; otherwise the new entry, chain and trees are exactly these.
     * In a valid engine, with no segment whose chunk was cut off, the history grows by this record.
     */
    method PutWithRetention(key: Bytes, data: Bytes, dtype: DTypeId, shape: seq<u32>, attrs: AttrMap,
                            policy: RetentionPolicy, elapsed: nat) returns (r: Outcome<Result<(), TpxError>>)
      requires Sound() && |toc.entries| + 1 < U32_LIMIT
      requires key in keys && Utf8.Valid(key) && AllStorable(attrs) && SegmentsIn(env, blobs, data)
      modifies this, io, toc, content
      ensures Sound() && missed == old(missed) && stale == old(stale) && shift == old(shift) && settled == old(settled)
      ensures mode == ReadOnly ==>
                && r == Returned(Failure(ReadOnlyMode)) && toc.entries == old(toc.entries) && chains == old(chains)
                && trees == old(trees) && content.entries == old(content.entries) && leaked == old(leaked)
                && io.Content() == old(io.Content())
      ensures Routed(shardCount, KeyTouches(env, shardCount, key, data))
      ensures mode != ReadOnly ==>
                && old(io.Content()) <= io.Content()
                && (r.Panicked? <==> Touched(old(Shapes()), KeyTouches(env, shardCount, key, data)).None?)
                && Filed(old(content.entries), content.entries, HashSet(SegmentHashes(env, data)))
                && FirstAt(SegmentHashes(env, data), old(content.entries), content.entries, |old(io.Content())|)
      ensures r.Panicked? ==>
                && toc.entries == old(toc.entries) && chains == old(chains) && trees == old(trees)
                && leaked == old(leaked) + multiset(SegmentHashes(env, data))
      ensures mode != ReadOnly && r.Returned? ==>
                && var (hashes, p) := (SegmentHashes(env, data), PutItem(key, Tensor(dtype, shape, data), attrs, Some(policy)));
                && r.result == Success(())
                && Touched(old(Shapes()), KeyTouches(env, shardCount, key, data)) == Some(Shapes())
                && chains == ChainAfter(old(chains), env, p)
                && leaked == old(leaked) + LeakOf(PutEvicts(old(chains), env, p), content.entries.Keys)
                && NewEntry(env, old(toc.entries), toc.entries, p, |hashes|)
                && (AllFiled(hashes, old(content.entries)) ==>
                      && toc.entries[|toc.entries| - 1].chunkRefs == FiledRefs(hashes, old(content.entries))
                      && Tabled(old(io.Content()), io.Content(), toc.entries))
                && chunkCount == old(chunkCount) + |hashes|
                && PutWritten(env, hashes, old(content.entries), content.entries, env.keyHash(key) % shardCount, toc.entries, chunkCount,
                              old(bytesWrittenSinceLast), elapsed, old(io.Content()), old(io.durable),
                              io.Content(), io.durable, bytesWrittenSinceLast)
                && (Fresh(hashes, stale) ==>
                      ReadTensor(env, io.Content(), toc.entries[|toc.entries| - 1]) == Success(Tensor(dtype, shape, data)))
      ensures old(Valid()) && Fresh(SegmentHashes(env, data), stale) ==>
                && Valid()
                && (mode == ReadOnly || r.Panicked? ==> Records() == old(Records()))
                && (mode != ReadOnly && r.Returned? ==>
                      Records() == old(Records()) + [Record(key, Tensor(dtype, shape, data), attrs, true)])
                && (missed == multiset{} && r.Returned? ==> leaked == old(leaked))
                && CommitStep(old(commitLen), old(io.durable), old(commitEntries))
                && (mode != ReadOnly && r.Returned? && bytesWrittenSinceLast == 0 && io.Content() != old(io.Content()) ==> FreshCommit())
    {
      hide Trusted, StoreSound, HeaderFormat.HeaderBytes, At, Balanced, TableOk, ChainsOk, ChainsLive, HistoryOf, Uses, Committed;
      hide HoldsAll, SegmentsIn, Shifted, Utf8.Valid, AllStorable, IndexOf, Committable, TreesOk, StoreSound, Filed, LeakOf;
      hide SegmentHashes, Fresh, AllFiled, FiledRefs, Touched, Chained, Evicting, Block, EncodeToc, Tabled, NewEntry;
      hide FirstAt, ReadTensor, CoreValid, HashSet, ShardForKey, KeyTouches, ChainAfter, PutEvicts, Routed, CommitOk, Records, Shapes;
      hide Backend.MmapBackend.Valid, Backend.MmapBackend.Content, Backend.MmapBackend.Dense, Recorded, CheckpointRule, PutWritten;
      KeyRouted(env, shardCount, key, data);
      if mode == ReadOnly {
        return Returned(Failure(ReadOnlyMode));
      }
      ghost var good := Valid() && Fresh(SegmentHashes(env, data), stale);
      var ok := PutSegments(key, data, dtype, shape, attrs, policy, good);
      if !ok {
        return Panicked;
      }
      FinishPut(elapsed, good, SegmentHashes(env, data), old(content.entries), env.keyHash(key) % shardCount,
                old(bytesWrittenSinceLast), old(io.Content()), old(io.durable));
      return Returned(Success(()));
    }

    /** The checkpoint at the end of a put that recorded its entry, if one is due. */
    method FinishPut(elapsed: nat, ghost good: bool, ghost hashes: seq<u128>, ghost before: map<u128, ContentEntry>, ghost shard: nat,
                     ghost written: nat, ghost log: Bytes, ghost disk: Bytes)
      requires Sound() && mode != ReadOnly && (good ==> Valid()) && toc.entries != []
      requires log <= io.Content() && io.durable == disk && bytesWrittenSinceLast - written == |io.Content()| - |log|
      requires Recorded(hashes, toc.entries[|toc.entries| - 1].chunkRefs, before, content.entries, shard, |log|, |io.Content()|)
      modifies this`bytesWrittenSinceLast, this`commitLen, this`commitEntries, io
      ensures Sound() && Tabled(old(io.Content()), io.Content(), toc.entries) && old(io.Content()) <= io.Content()
      ensures PutWritten(env, hashes, before, content.entries, shard, toc.entries, chunkCount, written, elapsed, log, disk,
                         io.Content(), io.durable, bytesWrittenSinceLast)
      ensures var e := toc.entries[|toc.entries| - 1];
              ReadTensor(env, old(io.Content()), e).Success? ==> ReadTensor(env, io.Content(), e) == ReadTensor(env, old(io.Content()), e)
      ensures good ==>
                && Valid() && Records() == old(Records()) && CommitStep(old(commitLen), old(io.durable), old(commitEntries))
                && (bytesWrittenSinceLast == 0 && io.Content() != log ==> FreshCommit())
    {
      hide Trusted, StoreSound, HeaderFormat.HeaderBytes, At, Balanced, TableOk, ChainsOk, ChainsLive, HistoryOf, Uses, Committed;
      hide IndexOf, TreesOk, Tabled, Block, EncodeToc, Committable, Recorded, CheckpointRule, PutWritten, ReadTensor, Records, CommitOk;
      ghost var stored, count := io.Content(), bytesWrittenSinceLast;
      MaybeCheckpoint(elapsed, good);
      RuleHeld(env, toc.entries, chunkCount, count, elapsed, stored, disk, io.Content(), io.durable, bytesWrittenSinceLast);
      PutIsWritten(env, hashes, before, content.entries, shard, toc.entries, chunkCount, written, elapsed, log, disk,
                   io.Content(), io.durable, bytesWrittenSinceLast, stored);
      if ReadTensor(env, stored, toc.entries[|toc.entries| - 1]).Success? {
        TensorGrows(env, stored, io.Content(), toc.entries[|toc.entries| - 1]);
      }
    }

    /** Everything of a put but the checkpoint: segments, tree, chain, table. */
    method PutSegments(key: Bytes, data: Bytes, dtype: DTypeId, shape: seq<u32>, attrs: AttrMap, policy: RetentionPolicy,
                       ghost good: bool) returns (ok: bool)
      requires Sound() && mode != ReadOnly && |toc.entries| + 1 < U32_LIMIT
      requires key in keys && Utf8.Valid(key) && AllStorable(attrs) && SegmentsIn(env, blobs, data)
      requires good ==> Valid() && Fresh(SegmentHashes(env, data), stale)
      modifies this`trees, this`chunkCount, this`chains, this`leaked, this`bytesWrittenSinceLast
      modifies io`file, io`writeBuffer, io`writeBufferStart, io`logicalLen, toc, content
      ensures Sound() && Routed(shardCount, KeyTouches(env, shardCount, key, data)) && old(io.Content()) <= io.Content()
      ensures ok <==> Touched(old(Shapes()), KeyTouches(env, shardCount, key, data)).Some?
      ensures Filed(old(content.entries), content.entries, HashSet(SegmentHashes(env, data)))
      ensures FirstAt(SegmentHashes(env, data), old(content.entries), content.entries, |old(io.Content())|)
      ensures !ok ==>
                && toc.entries == old(toc.entries) && chains == old(chains) && trees == old(trees)
                && leaked == old(leaked) + multiset(SegmentHashes(env, data))
                && (good ==> Valid() && Records() == old(Records()))
      ensures bytesWrittenSinceLast - old(bytesWrittenSinceLast) == |io.Content()| - |old(io.Content())|
      ensures ok ==> |toc.entries| == |old(toc.entries)| + 1
      ensures ok ==>
                && var (hashes, p) := (SegmentHashes(env, data), PutItem(key, Tensor(dtype, shape, data), attrs, Some(policy)));
                && Touched(old(Shapes()), KeyTouches(env, shardCount, key, data)) == Some(Shapes())
                && chains == ChainAfter(old(chains), env, p)
                && leaked == old(leaked) + LeakOf(PutEvicts(old(chains), env, p), content.entries.Keys)
                && NewEntry(env, old(toc.entries), toc.entries, p, |hashes|)
                && (AllFiled(hashes, old(content.entries)) ==>
                      && toc.entries[|toc.entries| - 1].chunkRefs == FiledRefs(hashes, old(content.entries))
                      && io.Content() == old(io.Content()))
                && Recorded(hashes, toc.entries[|toc.entries| - 1].chunkRefs, old(content.entries), content.entries,
                            env.keyHash(key) % shardCount, |old(io.Content())|, |io.Content()|)
                && chunkCount == old(chunkCount) + |hashes|
                && (Fresh(hashes, stale) ==>
                      ReadTensor(env, io.Content(), toc.entries[|toc.entries| - 1]) == Success(Tensor(dtype, shape, data)))
                && (good ==>
                      && Valid() && Records() == old(Records()) + [Record(key, Tensor(dtype, shape, data), attrs, true)]
                      && (missed == multiset{} ==> leaked == old(leaked)))
    {
      hide Trusted, StoreSound, HeaderFormat.HeaderBytes, At, Balanced, TableOk, ChainsOk, ChainsLive, HistoryOf, Uses, Committed;
      hide HoldsAll, SegmentsIn, Shifted, Utf8.Valid, AllStorable, IndexOf, Committable, TreesOk, Filed, LeakOf, CoreValid, CommitOk;
      hide SegmentHashes, Fresh, AllFiled, FiledRefs, Touched, Chained, Evicting, NewEntry, ReadTensor, HashSet, FirstAt, RefsKept, ShardForKey, KeyTouches, ChainAfter, PutEvicts, Recorded;
      ghost var first, end := content.entries, |io.Content()|;
      var shardId := ShardForKey(env, key, shardCount);
      ShardIs(env, key, shardCount);
      var refs, hashes := StoreData(data, shardId, dtype, good);
      ghost var mid, table := content.entries, toc.entries;
      NoSegments(env, data);
      NothingElse(Uses(chains), multiset(hashes));
      ok := RecordPut(key, dtype, shape, attrs, refs, hashes, Some(policy), data, multiset{}, good);
      FiledKept(first, mid, content.entries, HashSet(hashes));
      FirstKept(hashes, first, mid, content.entries, end);
      RecordedKept(hashes, refs, first, mid, content.entries, shardId, end, |io.Content()|);
      if ok {
        NothingElse(Uses(chains), multiset{});
        EntryAdded(env, table, PutItem(key, Tensor(dtype, shape, data), attrs, Some(policy)), refs);
        if Fresh(hashes, stale) {
          EntryReads(env, io.Content(), TocEntry(env.keyHash(key), key, dtype, shape, attrs, refs, 0), data);
        }
      } else {
        LeaveUncounted(multiset(hashes), good);
      }
    }

    /** The key goes into its tree, the version into its chain and the entry into the table, unless the tree stops. */
    method RecordPut(key: Bytes, dtype: DTypeId, shape: seq<u32>, attrs: AttrMap, refs: seq<ChunkRef>, hashes: seq<u128>,
                     policy: Option<RetentionPolicy>, ghost data: Bytes, ghost rest: multiset<u128>, ghost good: bool)
        returns (ok: bool)
      requires Sound() && |toc.entries| + 1 < U32_LIMIT && (refs == [] <==> data == []) && hashes == SegmentHashes(env, data)
      requires key in keys && Utf8.Valid(key) && AllStorable(attrs)
      requires good ==> CoreValid() && HoldsAll(env, io.Content(), refs, data)
      requires good ==> Balanced(content.entries, Uses(chains) + multiset(hashes) + rest, leaked, missed)
      modifies this`trees, this`chunkCount, this`chains, this`leaked, content, toc
      ensures Sound() && Filed(old(content.entries), content.entries, {})
      ensures chunkCount == old(chunkCount) + if ok then |refs| else 0
      ensures var ts := KeyTouches(env, shardCount, key, data);
              && Routed(shardCount, ts)
              && (ok <==> Touched(old(Shapes()), ts).Some?)
              && (ok ==> Touched(old(Shapes()), ts) == Some(Shapes()))
      ensures !ok ==>
                && toc.entries == old(toc.entries) && chains == old(chains) && trees == old(trees) && leaked == old(leaked)
                && content.entries == old(content.entries) && (good ==> CoreValid() && Records() == old(Records()))
      ensures ok ==>
                && var p := PutItem(key, Tensor(dtype, shape, data), attrs, policy);
                && toc.entries == old(toc.entries) + [TocEntry(env.keyHash(key), key, dtype, shape, attrs, refs, 0)]
                && chains == ChainAfter(old(chains), env, p)
                && leaked == old(leaked) + LeakOf(PutEvicts(old(chains), env, p), content.entries.Keys)
                && (good ==>
                      && CoreValid() && Records() == old(Records()) + [Record(key, Tensor(dtype, shape, data), attrs, true)]
                      && Balanced(content.entries, Uses(chains) + rest, leaked, missed)
                      && (missed == multiset{} ==> leaked == old(leaked)))
    {
      hide Trusted, StoreSound, HeaderFormat.HeaderBytes, At, Balanced, TableOk, ChainsOk, ChainsLive, HistoryOf, Uses, Committed;
      hide Chained, Evicting, Utf8.Valid, AllStorable, IndexOf, HoldsAll, AllSized, ShapesOf, Filed, LeakOf, Touched, KeyTouches, SegmentHashes;
      FiledSame(content.entries);
      ok := InsertKey(key, refs, data);
      if ok {
        CommitVersion(key, dtype, shape, attrs, refs, hashes, policy, data, rest, good);
      }
    }

    /** References counted for versions that were never recorded. */
    ghost method LeaveUncounted(dropped: multiset<u128>, good: bool)
      requires Sound()
      requires good ==> CoreValid() && Balanced(content.entries, Uses(chains) + dropped, leaked, missed)
      modifies this`leaked
      ensures Sound() && leaked == old(leaked) + dropped
      ensures good ==> Valid() && Records() == old(Records())
    {
      hide Trusted, StoreSound, HeaderFormat.HeaderBytes, At, Balanced, TableOk, ChainsOk, ChainsLive, HistoryOf, Uses, Committed;
      hide IndexOf, TreesOk;
      if good {
        BalanceLeak(content.entries, Uses(chains), dropped, leaked, missed);
      }
      leaked := leaked + dropped;
    }

    /** `should_checkpoint` and, if so, the checkpoint. */
    method MaybeCheckpoint(elapsed: nat, ghost good: bool)
      requires Sound() && mode != ReadOnly && (good ==> Valid())
      modifies this`bytesWrittenSinceLast, this`commitLen, this`commitEntries, io
      ensures Sound() && Tabled(old(io.Content()), io.Content(), toc.entries) && old(io.Content()) <= io.Content()
      ensures CheckpointRule(env, toc.entries, chunkCount, old(bytesWrittenSinceLast), elapsed, old(io.Content()), old(io.durable),
                             io.Content(), io.durable, bytesWrittenSinceLast)
      ensures good ==>
                Valid() && Records() == old(Records()) && CommitStep(old(commitLen), old(io.durable), old(commitEntries))
      ensures good && Due(old(bytesWrittenSinceLast), elapsed) ==> FreshCommit()
    {
      hide Trusted, StoreSound, HeaderFormat.HeaderBytes, At, Balanced, TableOk, ChainsOk, ChainsLive, HistoryOf, Uses, Committed;
      hide IndexOf, TreesOk, Tabled, Block, EncodeToc, Committable;
      ghost var log := io.Content();
      TabledSame(log, toc.entries);
      if ShouldCheckpoint(elapsed) {
        var footer := ExecuteCheckpoint(false, good);
        TabledOnce(log, toc.entries, footer.value);
      }
    }

    /**
     * Counters are exact uses as long as nothing leaked or was missed: put keeps it that way, and so does a
     * batch that misses nothing (`Puts.MissesNothing`).
     */
    lemma CountsAreUses()
      requires Valid() && leaked == multiset{} && missed == multiset{}
      ensures forall h :: h in Uses(chains) ==> h in content.entries
      ensures forall h :: h in content.entries && Uses(chains)[h] < U32_LIMIT ==> content.entries[h].refcount == Uses(chains)[h]
      ensures (forall h :: Uses(chains)[h] < U32_LIMIT) ==>
                forall h :: h in GcCandidates(content.entries) <==> h in content.entries && h !in Uses(chains)
    {
      hide CoreValid, Uses;
      ExactCounts(content.entries, Uses(chains));
    }

    /** Takes the key from its tree, drops its chain without releasing its chunks, and tombstones its entries. */
    method Delete(key: Bytes) returns (r: Result<(), TpxError>)
      requires Sound()
      modifies this`chains, this`leaked, this`trees, this`shift, toc
      ensures Sound()
      ensures mode == ReadOnly ==>
                && r == Failure(ReadOnlyMode) && toc.entries == old(toc.entries)
                && leaked == old(leaked) && chains == old(chains) && trees == old(trees) && shift == old(shift)
      ensures mode != ReadOnly ==>
                && r == Success(()) && toc.entries == Tombstoned(old(toc.entries), key)
                && leaked == old(leaked) + UsesOf(old(chains), key) && chains == old(chains) - {key} && shift == old(shift) - {key}
                && var touches := [Touch(env.keyHash(key) % shardCount, ArtRuns.Del(key))];
                   Routed(shardCount, touches) && Touched(old(Shapes()), touches) == Some(Shapes())
      ensures old(Valid()) ==> Valid() && Records() == if mode == ReadOnly then old(Records()) else Dead(old(Records()), key)
    {
      hide Trusted, StoreSound, HeaderFormat.HeaderBytes, At, Balanced, TableOk, ChainsOk, ChainsLive, HistoryOf, Uses, Committed;
      hide TreesOk, ShapesOf, Touched, IndexOf;
      if mode == ReadOnly {
        return Failure(ReadOnlyMode);
      }
      ghost var good := Valid();
      RemoveKey(key);
      DropRecords(key, good);
      return Success(());
    }

    method RemoveKey(key: Bytes)
      requires TreesOk()
      modifies this`trees
      ensures TreesOk()
      ensures var touches := [Touch(env.keyHash(key) % shardCount, ArtRuns.Del(key))];
              Routed(shardCount, touches) && Touched(old(Shapes()), touches) == Some(Shapes())
    {
      hide AllSized, ShapesOf, Touched;
      var after := TreeRemoveKey(env, shardCount, key, trees);
      ShapesSized(after);
      trees := after;
    }

    /** The chain is dropped without releasing its chunks, and every entry of the key is tombstoned. */
    method DropRecords(key: Bytes, ghost good: bool)
      requires Sound() && (good ==> Valid())
      modifies this`chains, this`leaked, this`shift, toc
      ensures Sound() && toc.entries == Tombstoned(old(toc.entries), key)
      ensures leaked == old(leaked) + UsesOf(old(chains), key) && chains == old(chains) - {key} && shift == old(shift) - {key}
      ensures good ==> Valid() && Records() == Dead(old(Records()), key)
    {
      hide Trusted, StoreSound, HeaderFormat.HeaderBytes, At, Balanced, TableOk, ChainsOk, ChainsLive, HistoryOf, Uses, Committed;
      hide TreesOk, IndexOf, Dead, UsesOf, Tombstoned;
      if good {
        ghost var h := Records();
        ChainsDelete(h, chains, shift, key);
        UsesDelete(chains, key);
        BalanceLeak(content.entries, Uses(chains - {key}), UsesOf(chains, key), leaked, missed);
        TableTombstone(env, keys, io.Content(), toc.entries, key);
      }
      leaked := leaked + UsesOf(chains, key);
      chains, shift := chains - {key}, shift - {key};
      toc.Tombstone(key);
    }

    // ---------- reading ----------

    method ReadTensorFromEntry(entry: TocEntry) returns (r: Result<Tensor, TpxError>)
      requires io.Valid() && io.Dense()
      modifies io`file, io`writeBuffer, io`writeBufferStart
      ensures io.Valid() && io.Dense() && io.Content() == old(io.Content())
      ensures r == ReadTensor(env, io.Content(), entry)
      ensures forall error :: Damaged(env, io.Content(), entry, error) ==> r == Failure(error)
      ensures r.Success? ==> Undamaged(env, io.Content(), entry, r.value.data)
    {
      hide DecodeChunk, Damaged, Undamaged;
      ReadingIsHonest(env, io.Content(), entry);
      var fullData: Bytes := [];
      var refs := entry.chunkRefs;
      for i := 0 to |refs|
        invariant io.Valid() && io.Dense() && io.Content() == old(io.Content())
        invariant ReadChunks(env, io.Content(), refs[..i], entry.dtype) == Success(fullData)
      {
        assert refs[..i + 1][..i] == refs[..i];
        var segment := ReadOneChunk(refs[i], entry.dtype);
        if segment.Failure? {
          FirstBadChunk(env, io.Content(), refs, entry.dtype, i, segment.error);
          return Failure(segment.error);
        }
        fullData := fullData + segment.value;
      }
      assert refs[..|refs|] == refs;
      return Success(Tensor(entry.dtype, entry.shape, fullData));
    }

    method ReadOneChunk(c: ChunkRef, dtype: DTypeId) returns (r: Result<Bytes, TpxError>)
      requires io.Valid() && io.Dense()
      modifies io`file, io`writeBuffer, io`writeBufferStart
      ensures io.Valid() && io.Dense() && io.Content() == old(io.Content())
      ensures r == ReadChunk(env, io.Content(), c, dtype)
    {
      hide DecodeChunk, Corrupt, Misfit, Sealed;
      var read := io.ReadAt(c.chunkOffset, c.chunkLen);
      if read.Failure? {
        return Failure(read.error);
      }
      r := DecodeBytes(env, read.value, c.chunkOffset, dtype);
    }

    /** The current tensor of a key, whatever path its chunks took; in any engine, what its entry reads as. */
    method Get(key: Bytes) returns (r: Result<Option<Tensor>, TpxError>)
      requires Sound()
      modifies io`file, io`writeBuffer, io`writeBufferStart
      ensures Sound() && io.Content() == old(io.Content())
      ensures r == Looked(env, io.Content(), toc.entries, key)
      ensures var e := LookupIn(toc.entries, IndexOf(toc.entries), env.keyHash(key), key);
              e.Some? ==>
                && (forall error :: Damaged(env, io.Content(), e.value, error) ==> r == Failure(error))
                && (r.Success? ==> r.value.Some? && Undamaged(env, io.Content(), e.value, r.value.value.data))
      ensures old(Valid()) ==>
                && Valid() && Records() == old(Records())
                && r == Success(if key in View(Records()) then Some(View(Records())[key]) else None)
    {
      hide Trusted, StoreSound, HeaderFormat.HeaderBytes, At, Balanced, TableOk, ChainsOk, ChainsLive, HistoryOf, Uses, Committed;
      hide ReadTensor, Damaged, Undamaged, LookupIn, IndexOf, Find, View, TreesOk, StoreSound;
      if Valid() {
        CurrentEntry(env, keys, blobs, io.Content(), toc.entries, key);
      }
      var entry := toc.Lookup(key);
      if entry.None? {
        return Success(None);
      }
      var tensor := ReadTensorFromEntry(entry.value);
      return MapSome(tensor);
    }

    method Keys() returns (result: seq<Bytes>)
      requires Valid()
      ensures result == KeysFrom(toc.entries, {})
      ensures forall k :: k in result <==> k != [] && k in View(Records())
      ensures Unique(result)
    {
      hide View, Find, KeysFrom;
      result := LiveKeys(toc.entries);
      KeysAreLive(toc.entries, {});
      KeysAreCurrent(env, io.Content(), toc.entries, result);
    }

    /** Every current tensor whose key starts with `prefix`, read through `Get`. */
    method GetPrefix(prefix: Bytes) returns (results: map<Bytes, Tensor>)
      requires Valid()
      modifies io`file, io`writeBuffer, io`writeBufferStart
      ensures Valid() && Records() == old(Records())
      ensures results == map k | k in View(Records()) && prefix <= k :: View(Records())[k]
    {
      hide CoreValid, Records, View, PrefixFrom, Balanced, Uses, Collected, Matches, StorageOk, TreesOk, IndexOf, Looked;
      var matching := toc.LookupPrefix(prefix);
      MatchingAreCurrent(prefix, matching);
      results := map[];
      ghost var view := View(Records());
      CollectedNone(view, matching);
      for i := 0 to |matching|
        invariant Valid() && CoreValid() && Records() == old(Records())
        invariant Collected(results, view, matching, i)
      {
        ValidIsSound();
        var tensor := Get(matching[i].key);
        CollectedOne(results, view, matching, i, prefix);
        results := results[matching[i].key := tensor.value.value];
      }
      CollectedAll(results, view, matching, prefix);
    }

    lemma ValidIsSound()
      requires Valid()
      ensures Sound()
    {
      hide StorageOk, TreesOk, TableOk, ChainsOk, ChainsLive, HistoryOf, Balanced, Uses, CommitOk, IndexOf;
    }

    lemma MatchingAreCurrent(prefix: Bytes, matching: seq<TocEntry>)
      requires Valid() && matching == PrefixFrom(toc.entries, prefix, {})
      ensures CoreValid()
      ensures Matches(View(Records()), matching, prefix)
    {
      hide StoreSound, Trusted, CommitOk, Balanced, TableOk, ChainsOk, HistoryOf, View, Find, PrefixFrom, IndexOf;
      PrefixIsFind(toc.entries, prefix, {});
      PrefixIsCurrent(env, keys, io.Content(), toc.entries, prefix, matching);
    }

    /**
     * Crash recovery: whatever a crash leaves after the last commit, opening the file recovers the
     * committed table, and with it the committed history, exactly when the scan meets no false footer.
     */
    lemma CrashRecovers(tail: Bytes)
      requires Valid() && commitLen > 0
      ensures var file := io.durable[..commitLen];
              && (Recover(file + tail) == Success(Recovered(CHUNK_ALIGN, shardCount, commitEntries, commitLen))
                  <==> CleanTail(file, tail))
              && (CleanTail(file, tail) ==> Intact(env, keys, file + tail, file, shardCount, commitEntries))
              && HistoryOf(env, file, commitEntries) == CommittedRecords()
    {
      hide StoreSound, TableOk, ChainsOk, HistoryOf, Balanced, Recover, CleanTail, HeaderFormat.HeaderBytes;
      var file := io.durable[..commitLen];
      assert (file + tail)[|file|..] == tail;
      RecoverCommitted(file, tail, shardCount, commitEntries);
    }

    /**
     * The ids of the retained versions: consecutive, ending at the lead of the key plus its live puts;
     * without a compaction the lead is zero. A key without a chain would list one id per live put.
     */
    method ListVersionIds(key: Bytes) returns (r: Result<seq<nat>, TpxError>)
      requires Sound()
      ensures key in chains ==>
                r == if chains[key].versions == [] then Failure(KeyNotFound) else Success(ListVersions(chains[key]))
      ensures key !in chains ==>
                && var n := CountLive(toc.entries, key);
                && r == if LookupIn(toc.entries, IndexOf(toc.entries), env.keyHash(key), key).None? || n == 0 then Failure(KeyNotFound)
                        else Success(Ids(n))
      ensures Valid() ==>
                && (key in chains ==>
                      && var next := Lead(shift, key) + |LiveRecords(Records(), key)|;
                      && r.Success? && 0 < |r.value| <= next
                      && forall i :: 0 <= i < |r.value| ==> r.value[i] == next - |r.value| + i)
                && (key !in chains ==> key !in View(Records()) && r == Failure(KeyNotFound))
                && (settled ==> (key in chains <==> key in View(Records())))
    {
      hide Trusted, StoreSound, HeaderFormat.HeaderBytes, At, Balanced, HistoryOf, Uses, Committed, TreesOk;
      hide View, Find, LiveRecords, IndexOf, LookupIn, EntryOk, Readable, CountLive;
      if Valid() {
        assert ChainOk(Records(), chains, shift, key);
        LiveInView(Records(), key);
        CurrentEntry(env, keys, blobs, io.Content(), toc.entries, key);
      }
      if key in chains {
        var vc := chains[key];
        if |vc.versions| == 0 {
          return Failure(KeyNotFound);
        }
        return Success(ListVersions(vc));
      }
      var current := toc.Lookup(key);
      if current.None? {
        return Failure(KeyNotFound);
      }
      var count := CountLive(toc.entries, key);
      if count == 0 {
        return Failure(KeyNotFound);
      }
      return Success(Ids(count));
    }

    /** Version `version` of a key is its `version`-th table entry, dead ones included, if it is listed. */
    method GetVersion(key: Bytes, version: nat) returns (r: Result<Option<Tensor>, TpxError>)
      requires Sound()
      modifies io`file, io`writeBuffer, io`writeBufferStart
      ensures Sound() && io.Content() == old(io.Content())
      ensures key in chains && version !in ListVersions(chains[key]) ==> r == Failure(VersionNotFound(version))
      ensures key in chains && version in ListVersions(chains[key]) ==>
                r == VersionRead(env, io.Content(), toc.entries, key, version)
      ensures key !in chains ==> r == VersionRead(env, io.Content(), toc.entries, key, version)
      ensures old(Valid()) ==>
                && Valid() && Records() == old(Records())
                && (key !in chains ==> r == Failure(KeyNotFound))
                && (key in chains && version in ListVersions(chains[key]) ==>
                      r == if key !in View(Records()) then Failure(KeyNotFound)
                           else if version < |KeyRecords(Records(), key)| then Success(Some(KeyRecords(Records(), key)[version].tensor))
                           else Failure(VersionNotFound(version)))
    {
      hide Trusted, StoreSound, HeaderFormat.HeaderBytes, At, Balanced, HistoryOf, Uses, Committed, TreesOk;
      hide View, Find, LiveRecords, KeyRecords, IndexOf, LookupIn, EntryOk, ReadTensor, EntriesOf, Readable, ChainsLive;
      if Valid() {
        VersionOf(key, version);
      }
      if key in chains && version !in ListVersions(chains[key]) {
        return Failure(VersionNotFound(version));
      }
      var current := toc.Lookup(key);
      if current.None? {
        return Failure(KeyNotFound);
      }
      var keyEntries := EntriesOf(toc.entries, key);
      if version >= |keyEntries| {
        return Failure(VersionNotFound(version));
      }
      var tensor := ReadTensorFromEntry(keyEntries[version]);
      return MapSome(tensor);
    }

    /** What the version reads as, in terms of the history. */
    lemma VersionOf(key: Bytes, version: nat)
      requires Valid()
      ensures key !in chains ==> VersionRead(env, io.Content(), toc.entries, key, version) == Failure(KeyNotFound)
      ensures VersionRead(env, io.Content(), toc.entries, key, version)
              == if key !in View(Records()) then Failure(KeyNotFound)
                 else if version < |KeyRecords(Records(), key)| then Success(Some(KeyRecords(Records(), key)[version].tensor))
                 else Failure(VersionNotFound(version))
    {
      hide Trusted, StoreSound, HeaderFormat.HeaderBytes, At, Balanced, HistoryOf, Uses, Committed, TreesOk, CommitOk;
      hide View, Find, LiveRecords, KeyRecords, IndexOf, LookupIn, EntryOk, ReadTensor, EntriesOf, Readable, ChainsLive;
      assert ChainOk(Records(), chains, shift, key);
      LiveInView(Records(), key);
      CurrentEntry(env, keys, blobs, io.Content(), toc.entries, key);
      VersionEntries(env, io.Content(), toc.entries, key);
    }

    // ---------- compaction ----------

    /** Every live entry with its key's current tensor, in table order. */
    method CollectLive() returns (items: seq<LiveItem>)
      requires Valid()
      modifies io`file, io`writeBuffer, io`writeBufferStart
      ensures Valid() && Records() == old(Records())
      ensures items == LiveItems(Records(), View(Records()))
    {
      hide CoreValid, Records, Balanced, Uses, View, LiveItems, StorageOk, TreesOk, IndexOf, Looked;
      items := [];
      ghost var h, view := Records(), View(Records());
      EntriesCount();
      LiveItemsNone(h, view);
      for i := 0 to |toc.entries|
        invariant Valid() && CoreValid() && Records() == h
        invariant |h| == |toc.entries| && items == LiveItems(h[..i], view)
      {
        LiveItemsStep(h, view, i);
        var found := CollectEntry(i);
        items := items + found;
      }
      assert h[..|h|] == h;
    }

    method CollectEntry(i: nat) returns (found: seq<LiveItem>)
      requires Valid() && i < |toc.entries|
      modifies io`file, io`writeBuffer, io`writeBufferStart
      ensures Valid() && CoreValid() && Records() == old(Records()) && |Records()| == |toc.entries|
      ensures var (r, view) := (Records()[i], View(Records()));
              found == if r.live && r.key in view then [LiveItem(r.key, view[r.key], r.attrs)] else []
    {
      hide CoreValid, Records, Balanced, Uses, View, StorageOk, TreesOk, IndexOf, Looked;
      var entry := toc.entries[i];
      EntryRecord(i);
      found := [];
      EntriesCount();
      if entry.tombstone == 0 {
        ValidIsSound();
        var tensor := Get(entry.key);
        found := [LiveItem(entry.key, tensor.value.value, entry.attrs)];
      }
    }

    lemma EntryRecord(i: nat)
      requires Valid() && i < |toc.entries|
      ensures |Records()| == |toc.entries|
      ensures var r, e := Records()[i], toc.entries[i];
              r.key == e.key && r.attrs == e.attrs && (r.live <==> e.tombstone == 0)
      ensures Records()[i].live ==> Records()[i].key in View(Records())
    {
      hide View;
      var h := Records();
      if h[i].live {
        LiveInView(h, h[i].key);
        SomeLive(h, i);
      }
    }

    /** The file rewritten to its header page, with every filed chunk given up. */
    method CutToHeader()
      requires StorageOk() && mode != ReadOnly && stale == content.entries.Keys
      modifies io
      ensures StorageOk() && io.Content() == HeaderPage(shardCount)
    {
      hide Trusted, StoreSound, HeaderFormat.HeaderBytes, HeaderPage, At, Backend.Patched;
      ghost var before := io.Content();
      var header := HeaderPage(shardCount);
      AllGivenUp(env, blobs, before, header, content.entries, stale);
      HeaderOverwrites(before, shardCount);
      PageOnly(before, shardCount);
      var written := io.WriteAt(0, header);
      io.Truncate(|header|);
      assert io.Content() == header;
    }

    /** Only the header page and an empty table are left; trees, chains, counters and the content store stay. */
    method StartOver()
      requires Valid() && mode != ReadOnly
      modifies this`stale, this`shift, this`settled, this`commitLen, io, toc
      ensures Valid() && !settled && toc.entries == [] && Records() == [] && stale == content.entries.Keys
      ensures shift == Leads(old(Records()), chains, old(shift)) && io.Content() == HeaderPage(shardCount)
    {
      hide StorageOk, TableOk, ChainsOk, ChainsLive, HistoryOf, Uses, Committed, IndexOf, Balanced, TreesOk, HeaderPage;
      ChainsRestart(Records(), chains, shift);
      shift := Leads(Records(), chains, shift);
      settled, commitLen := false, 0;
      stale := content.entries.Keys;
      assert StorageOk() by { GiveUp(); }
      CutToHeader();
      StorageParts();
      toc.Reset();
      EmptyTable(env, keys, io.Content());
    }

    lemma TreesParts()
      requires TreesOk()
      ensures |Shapes()| == shardCount >= 1 && AllSized(Shapes())
    {
    }

    /** Giving up more chunks asks less of the storage. */
    twostate lemma GiveUp()
      requires old(StorageOk()) && unchanged(io, content) && stale == content.entries.Keys
      ensures StorageOk()
    {
      hide Trusted, StoreSound, HeaderFormat.HeaderBytes, At;
      AllGivenUp(env, blobs, io.Content(), io.Content(), content.entries, old(stale));
    }

    lemma StorageParts()
      requires StorageOk()
      ensures io.Valid()
    {
    }

    /** `flush`: a checkpoint, then a sync that finds nothing left to write. */
    method Flush(ghost good: bool) returns (r: Result<(), TpxError>, ghost footer: FooterFormat.Footer)
      requires Sound() && mode != ReadOnly && (good ==> Valid())
      modifies this`bytesWrittenSinceLast, this`commitLen, this`commitEntries, io
      ensures Sound() && io.Valid() && r == Success(())
      ensures good ==> Valid() && Records() == old(Records()) && FreshCommit()
      ensures io.Content() == old(io.Content()) + Block(EncodeToc(toc.entries), footer)
    {
      hide Trusted, StoreSound, HeaderFormat.HeaderBytes, At, Balanced, TableOk, ChainsOk, ChainsLive, HistoryOf, Uses, Committed, IndexOf;
      hide TreesOk, Block, EncodeToc, AllFit;
      var checkpoint := ExecuteCheckpoint(false, good);
      io.Sync();
      return Success(()), checkpoint.value;
    }

    /**
     * Every live record is put again with its key's current tensor over a file cut back to its header.
     * It stops exactly when one of these puts does. A key reads as before if no segment of its tensor is
     * filed in the content store; if that holds of all keys, the engine stays valid. If every segment of
     * every current tensor is filed, no chunk is written: the new table refers to where the chunks used to
     * be, and a table stands right behind the header page. Chains go on counting.
     */
    method Compact() returns (r: Outcome<Result<(), TpxError>>)
      requires Valid()
      requires forall k :: k in View(Records()) ==> SegmentsIn(env, blobs, View(Records())[k].data)
      modifies this, io, toc, content
      ensures Sound()
      ensures mode == ReadOnly ==> r == Returned(Failure(ReadOnlyMode)) && Valid() && Records() == old(Records())
      ensures mode != ReadOnly ==>
                && var items := LiveItems(old(Records()), View(old(Records())));
                && Routed(shardCount, TouchesOf(env, shardCount, Rewrites(items)))
                && (r.Panicked? <==> Touched(old(Shapes()), TouchesOf(env, shardCount, Rewrites(items))).None?)
                && (r.Returned? ==>
                      && r.result == Success(()) && |toc.entries| == |items|
                      && Touched(old(Shapes()), TouchesOf(env, shardCount, Rewrites(items))) == Some(Shapes())
                      && stale == old(content.entries).Keys && shift == Leads(old(Records()), old(chains), old(shift))
                      && chains == ChainsAfter(old(chains), env, Rewrites(items)))
      ensures mode != ReadOnly ==>
                && var items := LiveItems(old(Records()), View(old(Records())));
                && (NoneFiled(env, items, old(content.entries)) ==>
                      && Valid()
                      && (r.Panicked? ==> exists i :: 0 <= i < |items| && Records() == Rewritten(items[..i]))
                      && (r.Returned? ==>
                            && FreshCommit() && settled == old(settled) && Records() == Rewritten(items)
                            && View(Records()) == View(old(Records()))))
                && (r.Returned? ==> ReadersKept(env, View(old(Records())), old(content.entries), toc.entries, io.Content()))
                && (EachFiled(env, items, old(content.entries)) && r.Returned? ==>
                      && Refiled(env, items, old(content.entries), toc.entries)
                      && (items != [] ==> FirstTable(io.Content(), HeaderPage(shardCount), toc.entries)))
    {
      hide CoreValid, Balanced, Uses, View, LiveItems, Rewritten, Records, SegmentsIn, FreshCommit, NoneFiled, EachFiled, Refiled;
      hide StorageOk, TreesOk, Touched, TouchesOf, ChainsAfter, Leads, Rewrites, FirstTable, HeaderPage, IndexOf, Shapes, Routed, ItemUsable, ReadersKept;
      ValidIsSound();
      if mode == ReadOnly {
        return Returned(Failure(ReadOnlyMode));
      }
      var items := CollectLive();
      LiveUsable(items);
      r := Rewrite(items);
    }

    /** The second half of `compact`, from the rewritten header page on. */
    method Rewrite(items: seq<LiveItem>) returns (r: Outcome<Result<(), TpxError>>)
      requires Valid() && mode != ReadOnly && items == LiveItems(Records(), View(Records())) && |items| < U32_LIMIT
      requires forall i :: 0 <= i < |items| ==> ItemUsable(env, keys, blobs, items[i])
      modifies this, io, toc, content
      ensures Sound() && Routed(shardCount, TouchesOf(env, shardCount, Rewrites(items)))
      ensures r.Panicked? <==> Touched(old(Shapes()), TouchesOf(env, shardCount, Rewrites(items))).None?
      ensures r.Returned? ==>
                && r.result == Success(()) && |toc.entries| == |items|
                && Touched(old(Shapes()), TouchesOf(env, shardCount, Rewrites(items))) == Some(Shapes())
                && stale == old(content.entries).Keys && shift == Leads(old(Records()), old(chains), old(shift))
                && chains == ChainsAfter(old(chains), env, Rewrites(items))
      ensures NoneFiled(env, items, old(content.entries)) ==>
                && Valid()
                && (r.Panicked? ==> exists i :: 0 <= i < |items| && Records() == Rewritten(items[..i]))
                && (r.Returned? ==>
                      && FreshCommit() && settled == old(settled) && Records() == Rewritten(items)
                      && View(Records()) == View(old(Records())))
      ensures r.Returned? ==> ReadersKept(env, View(old(Records())), old(content.entries), toc.entries, io.Content())
      ensures EachFiled(env, items, old(content.entries)) && r.Returned? ==>
                && Refiled(env, items, old(content.entries), toc.entries)
                && (items != [] ==> FirstTable(io.Content(), HeaderPage(shardCount), toc.entries))
    {
      hide CoreValid, Balanced, Uses, View, LiveItems, Rewritten, Records, FreshCommit, NoneFiled, EachFiled, Refiled, Rewriting;
      hide StorageOk, TreesOk, Touched, TouchesOf, ChainsAfter, Leads, Rewrites, FirstTable, HeaderPage, IndexOf, Shapes, Routed, ItemUsable, TableNext, Listed, ItemsRead, ReadersKept;
      hide Block, EncodeToc, Committable, DeadFirst, ChainsLive;
      ghost var h, good := Records(), NoneFiled(env, items, content.entries);
      SettledParts();
      StartOver();
      ValidIsSound();
      ghost var done;
      var stopped;
      stopped, done := PutItems(items, good);
      if stopped {
        return Panicked;
      }
      assert items[..|items|] == items;
      AllPut(items, h, old(content.entries), old(chains), old(Shapes()), old(settled), good);
      ghost var log := io.Content();
      var flushed;
      ghost var footer;
      flushed, footer := Flush(good);
      ItemsReadGrow(env, items, old(content.entries), toc.entries, log, io.Content());
      LiveKeptReads(h, items, old(content.entries));
      if items != [] && TableNext(log, HeaderPage(shardCount), toc.entries) {
        LastTable(log, HeaderPage(shardCount), toc.entries, footer);
      }
      return Returned(flushed);
    }

    lemma LiveKeptReads(h: seq<Record>, items: seq<LiveItem>, first: map<u128, ContentEntry>)
      requires Sound() && io.Valid() && DeadFirst(h) && items == LiveItems(h, View(h)) && |items| < U32_LIMIT
      requires Listed(env, items, toc.entries) && ItemsRead(env, items, first, toc.entries, io.Content())
      requires forall i :: 0 <= i < |items| ==> ItemUsable(env, keys, blobs, items[i])
      ensures ReadersKept(env, View(h), first, toc.entries, io.Content())
    {
      hide StoreSound, View, LiveItems, Listed, ItemsRead, SegmentsIn, Utf8.Valid, AllStorable, TreesOk, Lawful, ReadersKept;
      assert forall i :: 0 <= i < |items| ==> items[i].key in keys by {
        forall i | 0 <= i < |items| ensures items[i].key in keys {
          assert ItemUsable(env, keys, blobs, items[i]);
        }
      }
      KeptReads(env, keys, h, items, first, toc.entries, io.Content());
    }

    /** After the last put of a compaction. */
    ghost method AllPut(items: seq<LiveItem>, h: seq<Record>, first: map<u128, ContentEntry>, before: Chains, shapes: Shapes,
                        wasSettled: bool, good: bool)
      requires Sound() && !settled && items == LiveItems(h, View(h)) && DeadFirst(h) && (wasSettled ==> ChainsLive(h, before))
      requires good ==> Valid() && Records() == Rewritten(items)
      requires Rewriting(env, shardCount, HeaderPage(shardCount), items, |items|, first, before, shapes,
                         content.entries, chains, Shapes(), toc.entries, io.Content())
      modifies this`settled
      ensures Sound() && io.Valid() && Routed(shardCount, TouchesOf(env, shardCount, Rewrites(items)))
      ensures |shapes| == shardCount && AllSized(shapes)
      ensures Touched(shapes, TouchesOf(env, shardCount, Rewrites(items))) == Some(Shapes())
      ensures chains == ChainsAfter(before, env, Rewrites(items)) && |toc.entries| == |items|
      ensures Listed(env, items, toc.entries) && ItemsRead(env, items, first, toc.entries, io.Content())
      ensures EachFiled(env, items, first) ==>
                Refiled(env, items, first, toc.entries) && TableNext(io.Content(), HeaderPage(shardCount), toc.entries)
      ensures good ==>
                Valid() && Records() == Rewritten(items) && View(Records()) == View(h) && settled == wasSettled
    {
      hide CoreValid, Balanced, Uses, View, LiveItems, Rewritten, Records, Routed, Touched, TouchesOf, ChainsAfter, Rewrites, ChainsLive;
      hide StorageOk, TreesOk, EachFiled, Refiled, TableNext, HeaderPage, IndexOf, Rewriting, Shapes, Listed, ItemsRead;
      StorageParts();
      RewritingDone(env, shardCount, HeaderPage(shardCount), items, first, before, shapes,
                    content.entries, chains, Shapes(), toc.entries, io.Content());
      RewrittenView(h);
      if good && wasSettled {
        Settle(h, before, env, items);
        MarkSettled();
      }
      StorageParts();
    }

    /** Every chain has a live record again. */
    ghost method MarkSettled()
      requires Valid() && ChainsLive(Records(), chains)
      modifies this`settled
      ensures Valid() && settled && Records() == old(Records())
    {
      hide StorageOk, TreesOk, Balanced, TableOk, ChainsOk, ChainsLive, HistoryOf, CommitOk, IndexOf;
      settled := true;
    }

    lemma SettledParts()
      requires Valid()
      ensures DeadFirst(Records()) && (settled ==> ChainsLive(Records(), chains))
    {
      hide StorageOk, TreesOk, Balanced, ChainsOk, ChainsLive, HistoryOf, CommitOk, IndexOf;
    }

    /** The loop of `compact`: the live items put one by one, up to the first that stops. */
    method PutItems(items: seq<LiveItem>, ghost good: bool) returns (stopped: bool, ghost done: nat)
      requires Sound() && mode != ReadOnly && toc.entries == [] && |items| < U32_LIMIT
      requires forall i :: 0 <= i < |items| ==> ItemUsable(env, keys, blobs, items[i])
      requires stale == content.entries.Keys && io.Content() == HeaderPage(shardCount)
      requires good ==> Valid() && Records() == [] && NoneFiled(env, items, content.entries)
      modifies this, io, toc, content
      ensures Sound() && io.Valid() && stale == old(stale) && shift == old(shift) && settled == old(settled)
      ensures done <= |items| && (stopped <==> done < |items|) && |toc.entries| == done
      ensures Routed(shardCount, TouchesOf(env, shardCount, Rewrites(items)))
      ensures stopped ==> Touched(old(Shapes()), TouchesOf(env, shardCount, Rewrites(items))).None?
      ensures !stopped ==>
                Rewriting(env, shardCount, HeaderPage(shardCount), items, |items|, old(content.entries), old(chains), old(Shapes()),
                          content.entries, chains, Shapes(), toc.entries, io.Content())
      ensures good ==> Valid() && Records() == Rewritten(items[..done])
    {
      hide CoreValid, Balanced, Uses, Rewritten, Records, SegmentsIn, Utf8.Valid, AllStorable, StorageOk, TreesOk, Touched, Routed;
      hide TouchesOf, KeyTouches, NoneFiled, Filed, SegmentHashes, HeaderPage, IndexOf, Rewriting, ItemUsable, Shapes, Rewrites;
      hide Backend.MmapBackend.Valid, Backend.MmapBackend.Content, Backend.MmapBackend.Dense;
      ghost var page, first, before, shapes := HeaderPage(shardCount), content.entries, chains, Shapes();
      StorageParts();
      TreesParts();
      RewritingStart(env, shardCount, page, items, first, chains, shapes);
      RewrittenNone(items);
      PutsRouted(env, shardCount, Rewrites(items));
      done := 0;
      for i := 0 to |items|
        invariant done == i == |toc.entries| && Sound() && io.Valid()
        invariant stale == old(stale) && shift == old(shift) && settled == old(settled)
        invariant Rewriting(env, shardCount, page, items, i, first, before, shapes, content.entries, chains, Shapes(), toc.entries, io.Content())
        invariant good ==> Valid() && Records() == Rewritten(items[..i])
      {
        var stop := PutLive(items, i, page, first, before, shapes, good);
        if stop {
          return true, i;
        }
        done := i + 1;
      }
      assert items[..|items|] == items;
      return false, |items|;
    }

    /** One live item, put by `put`. */
    method PutLive(items: seq<LiveItem>, i: nat, ghost page: Bytes, ghost first: map<u128, ContentEntry>, ghost before: Chains,
                   ghost shapes: Shapes, ghost good: bool) returns (stop: bool)
      requires Sound() && mode != ReadOnly && i < |items| < U32_LIMIT && |toc.entries| == i
      requires ItemUsable(env, keys, blobs, items[i]) && stale == first.Keys
      requires Rewriting(env, shardCount, page, items, i, first, before, shapes, content.entries, chains, Shapes(), toc.entries, io.Content())
      requires good ==> Valid() && Records() == Rewritten(items[..i]) && NoneFiled(env, items, first)
      modifies this, io, toc, content
      ensures Sound() && stale == old(stale) && shift == old(shift) && settled == old(settled) && io.Valid()
      ensures Routed(shardCount, TouchesOf(env, shardCount, Rewrites(items))) && |shapes| == shardCount && AllSized(shapes)
      ensures stop ==> |toc.entries| == i && Touched(shapes, TouchesOf(env, shardCount, Rewrites(items))).None?
      ensures !stop ==>
                && |toc.entries| == i + 1
                && Rewriting(env, shardCount, page, items, i + 1, first, before, shapes, content.entries, chains, Shapes(), toc.entries, io.Content())
      ensures good ==> Valid() && Records() == Rewritten(items[..if stop then i else i + 1])
    {
      hide CoreValid, Balanced, Uses, Rewritten, Records, SegmentsIn, Utf8.Valid, AllStorable, StorageOk, TreesOk, Touched, Routed;
      hide TouchesOf, KeyTouches, NoneFiled, SegmentHashes, IndexOf, Rewriting, Shapes, ChainAfter, PutEvicts, NewEntry, Tabled;
      StorageParts();
      ghost var mid, chains', shapes', es, log := content.entries, chains, Shapes(), toc.entries, io.Content();
      var it := items[i];
      var elapsed: nat := *;
      RewritingNext(env, shardCount, page, items, i, first, before, shapes, mid, chains', shapes', es, log);
      RewritingBase(env, shardCount, page, items, i, first, before, shapes, mid, chains', shapes', es, log);
      RewrittenStep(items, i);
      var put := PutWithRetention(it.key, it.tensor.data, it.tensor.dtype, it.tensor.shape, it.attrs, KeepLatest, elapsed);
      StorageParts();
      stop := put.Panicked?;
      if !stop {
        RewritingStep(env, shardCount, page, items, i, first, before, shapes, mid, chains', shapes', es, log,
                      content.entries, chains, Shapes(), toc.entries, io.Content());
        RewritingBase(env, shardCount, page, items, i + 1, first, before, shapes,
                      content.entries, chains, Shapes(), toc.entries, io.Content());
      }
    }

    lemma EntriesCount()
      requires Valid()
      ensures CoreValid() && |Records()| == |toc.entries|
    {
    }

    /** What the live items bring along is enough to put them again. */
    lemma LiveUsable(items: seq<LiveItem>)
      requires Valid() && items == LiveItems(Records(), View(Records()))
      requires forall k :: k in View(Records()) ==> SegmentsIn(env, blobs, View(Records())[k].data)
      ensures |items| <= |toc.entries| < U32_LIMIT && DeadFirst(Records())
      ensures forall i :: 0 <= i < |items| ==> ItemUsable(env, keys, blobs, items[i])
    {
      hide Balanced, Uses, View, SegmentsIn, Utf8.Valid, AllStorable;
      var h := Records();
      forall i | 0 <= i < |h|
        ensures h[i].live ==> h[i].key in View(h) && h[i].key in keys && Utf8.Valid(h[i].key) && AllStorable(h[i].attrs)
      {
        EntryRecord(i);
        assert EntryOk(env, keys, toc.entries[i]);
      }
      LiveItemsUsable(env, keys, blobs, h, View(h));
    }

    // ---------- batch put ----------

    /** Chunking and compressing one item, which shares no state with the other items. */
    method ProcessItem(data: Bytes, dtype: DTypeId) returns (chunks: seq<ProcessedChunk>, ghost segs: seq<Bytes>)
      requires SegmentsIn(env, blobs, data)
      ensures WorkOk(env, blobs, chunks, segs) && Concat(segs) == data && HashSeq(chunks) == SegmentHashes(env, data)
    {
      hide SegmentsIn, Image, Cdc.SegmentsFrom, WorkOk, Concat, Usable, SegmentHashes;
      var segments := Cdc.CdcChunk(data, Cdc.DEFAULT_CONFIG, env.contentHash);
      CdcProperties.SegmentsTile(data, 0, Cdc.DEFAULT_CONFIG, env.contentHash);
      chunks, segs := [], [];
      ghost var off := 0;
      WorkNone(env, blobs, data);
      HashesAre(env, data);
      assert segments[0..] == segments;
      for i := 0 to |segments|
        invariant 0 <= off <= |data| && CdcProperties.Tiles(data, off, segments[i..], env.contentHash)
        invariant WorkOk(env, blobs, chunks, segs) && Concat(segs) == data[..off]
        invariant |chunks| == i && forall c :: 0 <= c < i ==> chunks[c].contentHash == segments[c].contentHash
      {
        var seg := segments[i];
        assert segments[i..][0] == seg && segments[i..][1..] == segments[i + 1..];
        var segment := data[seg.offset..seg.offset + seg.len];
        SegmentUsable(env, blobs, data, i);
        var chunkBytes := BuildChunk(env, segment, dtype);
        WorkSnoc(env, blobs, chunks, segs, data, off, segment);
        chunks := chunks + [ProcessedChunk(seg.contentHash, chunkBytes)];
        segs := segs + [segment];
        off := off + seg.len;
      }
      assert data[..|data|] == data;
    }

    /** Dedup check of one chunk: a hit gets its reference now, a miss joins the coalesced buffer. */
    method PlanChunk(t: nat, c: nat, chunk: ProcessedChunk, ghost segs: seq<seq<Bytes>>, shardId: u16,
                     row: Row, buffer: Bytes, pending: seq<PendingWrite>)
        returns (row': Row, buffer': Bytes, pending': seq<PendingWrite>, ghost hit: multiset<u128>)
      requires StorageOk() && t < |segs| && c < |segs[t]| == |row| && row[c].None? && chunk.contentHash !in stale
      requires Usable(blobs, segs[t][c])
      requires chunk == ProcessedChunk(env.contentHash(segs[t][c]), Image(env, segs[t][c]))
      requires RowOk(env, io.Content(), row, segs[t]) && Covered(row, t, c, pending)
      requires AllPendingOk(env, blobs, segs, buffer, pending) && Unfiled(pending, content.entries.Keys)
      modifies content
      ensures Filed(old(content.entries), content.entries, {}) && Unfiled(pending', content.entries.Keys)
      ensures forall h :: h in hit ==> h in content.entries
      ensures StorageOk() && |row'| == |row| && (forall x :: c < x < |row| ==> row'[x] == row[x])
      ensures RowOk(env, io.Content(), row', segs[t]) && Covered(row', t, c + 1, pending')
      ensures AllPendingOk(env, blobs, segs, buffer', pending') && pending <= pending'
      ensures Shifted(old(content.entries), content.entries, hit)
      ensures Accounts(PendingHashes(pending'), hit, PendingHashes(pending), multiset{chunk.contentHash})
    {
      hide Trusted, StoreSound, HeaderFormat.HeaderBytes, At, Image, Holds, PendingOk, AllPendingOk, Shifted, Lawful;
      hide RowOk, Covered, PendingHashes, Filed;
      var h := chunk.contentHash;
      ShiftNone(content.entries);
      FiledSame(content.entries);
      ghost var before := content.entries;
      var existing := Dedup(segs[t][c], h);
      if existing.Some? {
        FiledAgain(before, content.entries, h);
        RowSet(env, io.Content(), row, segs[t], t, c, pending, existing.value);
        return row[c := existing], buffer, pending, multiset{h};
      }
      TrustedParts(env, keys, blobs);
      ImageSize(env, segs[t][c]);
      var p := PendingWrite(t, c, |buffer|, |chunk.chunkBytes|, h, shardId);
      PendingSnoc(env, blobs, segs, buffer, pending, p);
      CoveredSnoc(row, t, c, pending, p);
      PendingHashesSnoc(pending, p);
      return row, buffer + chunk.chunkBytes, pending + [p], multiset{};
    }

    /** All chunks of one item, in order. */
    method PlanItem(t: nat, chunks: seq<ProcessedChunk>, ghost segs: seq<seq<Bytes>>, shardId: u16,
                    buffer: Bytes, pending: seq<PendingWrite>)
        returns (row: Row, buffer': Bytes, pending': seq<PendingWrite>, ghost hits: multiset<u128>)
      requires StorageOk() && t < |segs| && WorkOk(env, blobs, chunks, segs[t])
      requires AllPendingOk(env, blobs, segs, buffer, pending) && Unfiled(pending, content.entries.Keys)
      requires Fresh(HashSeq(chunks), stale)
      modifies content
      ensures Filed(old(content.entries), content.entries, {}) && Unfiled(pending', content.entries.Keys)
      ensures forall h :: h in hits ==> h in content.entries
      ensures StorageOk() && RowOk(env, io.Content(), row, segs[t])
      ensures AllPendingOk(env, blobs, segs, buffer', pending') && pending <= pending'
      ensures Covered(row, t, |row|, pending')
      ensures Shifted(old(content.entries), content.entries, hits)
      ensures Accounts(PendingHashes(pending'), hits, PendingHashes(pending), multiset(HashSeq(chunks)))
    {
      hide Trusted, StoreSound, HeaderFormat.HeaderBytes, At, AllPendingOk, Shifted, RowOk, Covered, PendingHashes, HashSeq, Usable, Accounts, Image, Filed, Unfiled;
      FiledSame(content.entries);
      row := seq(|chunks|, _ => None);
      buffer', pending', hits := buffer, pending, multiset{};
      ShiftNone(content.entries);
      PlanStart(env, io.Content(), row, segs[t], t, pending, chunks);
      for c := 0 to |chunks|
        invariant StorageOk() && |row| == |chunks| && RowOk(env, io.Content(), row, segs[t])
        invariant forall x :: c <= x < |row| ==> row[x].None?
        invariant AllPendingOk(env, blobs, segs, buffer', pending') && pending <= pending'
        invariant Filed(old(content.entries), content.entries, {}) && Unfiled(pending', content.entries.Keys)
        invariant forall h :: h in hits ==> h in content.entries
        invariant Covered(row, t, c, pending')
        invariant Shifted(old(content.entries), content.entries, hits)
        invariant Accounts(PendingHashes(pending'), hits, PendingHashes(pending), multiset(HashSeq(chunks)[..c]))
      {
        ghost var mid, ps, counted := content.entries, pending', hits;
        ghost var hit;
        ChunkFresh(chunks, stale, c);
        row, buffer', pending', hit := PlanChunk(t, c, chunks[c], segs, shardId, row, buffer', pending');
        ShiftJoin(old(content.entries), mid, content.entries, counted, hit);
        FiledKept(old(content.entries), mid, content.entries, {});
        FiledKeys(mid, content.entries);
        HashSeqStep(chunks, c);
        AccountsJoin(PendingHashes(pending), PendingHashes(ps), counted, multiset(HashSeq(chunks)[..c]),
                     PendingHashes(pending'), hit, multiset{chunks[c].contentHash});
        hits := counted + hit;
      }
      assert HashSeq(chunks)[..|chunks|] == HashSeq(chunks);
    }

    /** The dedup pass over the whole batch, before anything is written. */
    method PlanBatch(items: seq<BatchItem>, work: seq<seq<ProcessedChunk>>, ghost segs: seq<seq<Bytes>>)
        returns (rows: seq<Row>, buffer: Bytes, pending: seq<PendingWrite>, ghost hits: multiset<u128>)
      requires StorageOk() && |items| == |work| == |segs|
      requires forall t :: 0 <= t < |work| ==> WorkOk(env, blobs, work[t], segs[t]) && Fresh(HashSeq(work[t]), stale)
      modifies content
      ensures Filed(old(content.entries), content.entries, {}) && Unfiled(pending, content.entries.Keys)
      ensures forall h :: h in hits ==> h in content.entries
      ensures StorageOk() && RowsOk(env, io.Content(), rows, segs) && AllCovered(rows, pending)
      ensures AllPendingOk(env, blobs, segs, buffer, pending)
      ensures Shifted(old(content.entries), content.entries, hits)
      ensures PendingHashes(pending) + hits == HashesFrom(work, 0)
    {
      hide Trusted, StoreSound, HeaderFormat.HeaderBytes, At, Shifted, RowOk, Covered, HashSeq, WorkOk, AllPendingOk;
      hide RowsOk, AllCovered, Accounts, HashesFrom, PendingHashes, Filed, Fresh, Unfiled;
      FiledSame(content.entries);
      UnfiledNone(content.entries.Keys);
      rows, buffer, pending, hits := [], [], [], multiset{};
      ghost var planned: multiset<u128> := multiset{};
      ShiftNone(content.entries);
      BatchStart(env, blobs, io.Content(), segs, work);
      for t := 0 to |items|
        invariant StorageOk() && RowsOk(env, io.Content(), rows, segs[..t]) && AllCovered(rows, pending)
        invariant AllPendingOk(env, blobs, segs, buffer, pending)
        invariant Filed(old(content.entries), content.entries, {}) && Unfiled(pending, content.entries.Keys)
        invariant forall h :: h in hits ==> h in content.entries
        invariant Shifted(old(content.entries), content.entries, hits)
        invariant Accounts(PendingHashes(pending), hits, multiset{}, planned)
        invariant planned + HashesFrom(work, t) == HashesFrom(work, 0)
      {
        ghost var mid, ps, counted := content.entries, pending, hits;
        var row;
        ghost var hit;
        row, buffer, pending, hit := PlanItem(t, work[t], segs, ShardForKey(env, items[t].key, shardCount), buffer, pending);
        ShiftJoin(old(content.entries), mid, content.entries, counted, hit);
        FiledKept(old(content.entries), mid, content.entries, {});
        FiledKeys(mid, content.entries);
        AccountsJoin(multiset{}, PendingHashes(ps), counted, planned, PendingHashes(pending), hit, multiset(HashSeq(work[t])));
        RowsSnoc(env, io.Content(), rows, segs, t, ps, pending, row);
        HashesStep(work, t, planned);
        rows := rows + [row];
        planned := planned + multiset(HashSeq(work[t]));
        hits := counted + hit;
      }
      BatchEnd(work, PendingHashes(pending), hits, planned);
      assert segs[..|segs|] == segs;
    }

    /** Files one written chunk; an earlier duplicate in the batch keeps its own count of one. */
    method FileChunk(p: PendingWrite, base: nat, ghost log: Bytes, ghost buffer: Bytes, ghost segs: seq<seq<Bytes>>,
                     ghost uses: multiset<u128>) returns (r: ChunkRef)
      requires StorageOk() && io.Content() == log + buffer && base == |log| && CHUNK_ALIGN <= |log|
      requires PendingOk(env, blobs, segs, buffer, p)
      requires Balanced(content.entries, uses, leaked, missed)
      modifies content, this`missed, this`bytesWrittenSinceLast
      ensures StorageOk() && Balanced(content.entries, uses + multiset{p.contentHash}, leaked, missed)
      ensures Filed(old(content.entries), content.entries, {p.contentHash})
      ensures missed == old(missed) + if p.contentHash in old(content.entries) then multiset{p.contentHash} else multiset{}
      ensures Holds(env, io.Content(), r, segs[p.tensorIdx][p.chunkIdx])
      ensures bytesWrittenSinceLast == old(bytesWrittenSinceLast) + p.chunkLen
    {
      hide Trusted, StoreSound, HeaderFormat.HeaderBytes, At, Image, Holds, Balanced, Lawful, Filed;
      TrustedParts(env, keys, blobs);
      ghost var segment := segs[p.tensorIdx][p.chunkIdx];
      ImageSize(env, segment);
      PendingHolds(env, blobs, segs, log, buffer, p);
      var actualOffset := base + p.bufferOffset;
      r := ChunkRef(p.shardId, actualOffset, p.chunkLen);
      var entry := ContentEntry(p.shardId, actualOffset, p.chunkLen, 1);
      if p.contentHash !in content.entries {
        SoundInsert(env, blobs, io.Content(), content.entries, stale, entry, segment);
        FiledOnce(content.entries, p.contentHash, entry);
        BalanceShift(content.entries, content.entries[p.contentHash := entry], uses, multiset{p.contentHash}, leaked, missed);
      } else {
        BalanceMiss(content.entries, uses, p.contentHash, leaked, missed);
        FiledTwice(content.entries, p.contentHash);
      }
      var inserted := content.Insert(p.contentHash, entry);
      if !inserted {
        missed := missed + multiset{p.contentHash};
      }
      bytesWrittenSinceLast := bytesWrittenSinceLast + p.chunkLen;
    }

    /** After the single append, every planned chunk gets its final place. */
    method FileBatch(planned: seq<Row>, pending: seq<PendingWrite>, base: nat, ghost log: Bytes, ghost buffer: Bytes,
                     ghost segs: seq<seq<Bytes>>, ghost uses: multiset<u128>) returns (rows: seq<Row>)
      requires StorageOk() && io.Content() == log + buffer && (pending != [] ==> base == |log|) && CHUNK_ALIGN <= |log|
      requires AllPendingOk(env, blobs, segs, buffer, pending)
      requires RowsOk(env, io.Content(), planned, segs) && AllCovered(planned, pending)
      requires Balanced(content.entries, uses, leaked, missed) && Unfiled(pending, content.entries.Keys)
      modifies content, this`missed, this`bytesWrittenSinceLast
      ensures StorageOk() && Balanced(content.entries, uses + PendingHashes(pending), leaked, missed)
      ensures Missing(old(content.entries), content.entries, PendingHashes(pending), old(missed), missed)
      ensures RowsOk(env, io.Content(), rows, segs)
      ensures forall t :: 0 <= t < |rows| ==> Complete(rows[t])
      ensures bytesWrittenSinceLast == old(bytesWrittenSinceLast) + |buffer|
    {
      hide Trusted, StoreSound, HeaderFormat.HeaderBytes, At, Balanced, RowsOk, AllCovered, PendingOk, Extends, Placed, Complete, PendingHashes, Missing, Filed;
      MissingNone(content.entries, pending, missed);
      rows := planned;
      ExtendsSelf(planned);
      PendingHashesNone(pending, uses);
      for q := 0 to |pending|
        invariant StorageOk() && Balanced(content.entries, uses + PendingHashes(pending[..q]), leaked, missed)
        invariant Missing(old(content.entries), content.entries, PendingHashes(pending[..q]), old(missed), missed)
        invariant RowsOk(env, io.Content(), rows, segs) && Extends(planned, rows)
        invariant forall x :: 0 <= x < q ==> Placed(rows, pending[x])
        invariant bytesWrittenSinceLast == old(bytesWrittenSinceLast) + PendingSize(pending[..q])
      {
        PendingSizeStep(pending, q);
        assert PendingOk(env, blobs, segs, buffer, pending[q]);
        PendingHashesStep(pending, q, uses);
        ghost var mid, lacking := content.entries, missed;
        rows := FileRow(pending[q], planned, rows, base, log, buffer, segs, uses + PendingHashes(pending[..q]));
        MissingStep(old(content.entries), mid, content.entries, pending, q, old(missed), lacking, missed);
      }
      assert pending[..|pending|] == pending;
      RowsComplete(planned, rows, pending);
    }

    /** Files one chunk and fills its reference in. */
    method FileRow(p: PendingWrite, ghost planned: seq<Row>, rows: seq<Row>, base: nat, ghost log: Bytes, ghost buffer: Bytes,
                   ghost segs: seq<seq<Bytes>>, ghost uses: multiset<u128>) returns (rows': seq<Row>)
      requires StorageOk() && io.Content() == log + buffer && base == |log| && CHUNK_ALIGN <= |log|
      requires PendingOk(env, blobs, segs, buffer, p)
      requires RowsOk(env, io.Content(), rows, segs) && Extends(planned, rows)
      requires Balanced(content.entries, uses, leaked, missed)
      modifies content, this`missed, this`bytesWrittenSinceLast
      ensures StorageOk() && Balanced(content.entries, uses + multiset{p.contentHash}, leaked, missed)
      ensures Filed(old(content.entries), content.entries, {p.contentHash})
      ensures missed == old(missed) + if p.contentHash in old(content.entries) then multiset{p.contentHash} else multiset{}
      ensures RowsOk(env, io.Content(), rows', segs) && Extends(planned, rows')
      ensures Placed(rows', p) && forall x :: Placed(rows, x) ==> Placed(rows', x)
      ensures bytesWrittenSinceLast == old(bytesWrittenSinceLast) + p.chunkLen
    {
      hide Trusted, StoreSound, HeaderFormat.HeaderBytes, At, Balanced, RowsOk, PendingOk, Holds, Extends, Placed, Filed;
      PendingPlace(env, io.Content(), blobs, segs, buffer, p, rows);
      var r := FileChunk(p, base, log, buffer, segs, uses);
      RowsFill(env, io.Content(), blobs, planned, rows, segs, buffer, p, r);
      rows' := rows[p.tensorIdx := rows[p.tensorIdx][p.chunkIdx := Some(r)]];
    }

    /** Trees, chains and table entries of the whole batch, item by item, up to the first whose tree stops. */
    method CommitBatch(items: seq<BatchItem>, work: seq<seq<ProcessedChunk>>, rows: seq<Row>, ghost segs: seq<seq<Bytes>>)
        returns (ok: bool, ghost committed: nat)
      requires Sound() && CoreValid() && |toc.entries| + |items| < U32_LIMIT && |items| == |work| == |segs|
      requires forall i :: 0 <= i < |items| ==> ItemOk(env, keys, blobs, items[i]) && ItemWork(env, blobs, items[i], work[i], segs[i])
      requires RowsOk(env, io.Content(), rows, segs) && forall t :: 0 <= t < |rows| ==> Complete(rows[t])
      requires Balanced(content.entries, Uses(chains) + HashesFrom(work, 0), leaked, missed)
      modifies this`trees, this`chains, this`chunkCount, this`leaked, content, toc
      ensures Valid() && committed <= |items| && (ok <==> committed == |items|)
      ensures Batched(env, shardCount, items, committed, old(chains), old(Shapes()), chains, Shapes())
      ensures !ok ==> Stops(env, shardCount, items, old(Shapes()))
      ensures Records() == old(Records()) + BatchRecords(items[..committed])
      ensures Filed(old(content.entries), content.entries, {})
      ensures leaked == old(leaked) + LeakOf(EvictedBy(old(chains), env, BatchPuts(items)[..committed]), content.entries.Keys)
                        + HashesIn(env, BatchPuts(items)[committed..])
      ensures ok && missed == multiset{} ==> leaked == old(leaked)
      ensures chunkCount == old(chunkCount) + ChunksIn(env, BatchPuts(items)[..committed])
    {
      hide CoreValid, Records, Balanced, Uses, RowOk, RowsOk, Complete, HashSeq, HashesFrom, SegmentsIn, Concat, ItemOk, BatchRecords;
      hide StorageOk, TreesOk, Batched, Stops, EvictedBy, LeakOf, HashesIn, Filed, WorkOk, BatchPuts, Shapes, Touched, KeyTouches, ItemWork;
      hide Backend.MmapBackend.Valid, Backend.MmapBackend.Content, Backend.MmapBackend.Dense, ChainAfter, PutEvicts, Routed, RefsKept, ChunksIn, SegmentHashes;
      ghost var ps, first, before, shapes, was := BatchPuts(items), content.entries, chains, Shapes(), leaked;
      BatchNone(items, old(Records()));
      TreesParts();
      StorageParts();
      BatchedNone(env, shardCount, items, chains, shapes);
      FiledSame(first);
      LeaksNone(chains, env, items, content.entries.Keys);
      NoChunks(env, items);
      committed := 0;
      for i := 0 to |items|
        invariant committed == i && Sound() && io.Valid() && CoreValid() && |toc.entries| == |old(toc.entries)| + i
        invariant Batched(env, shardCount, items, i, before, shapes, chains, Shapes())
        invariant Records() == old(Records()) + BatchRecords(items[..i])
        invariant Filed(first, content.entries, {})
        invariant leaked == was + LeakOf(EvictedBy(before, env, ps[..i]), first.Keys)
        invariant chunkCount == old(chunkCount) + ChunksIn(env, ps[..i])
        invariant missed == multiset{} ==> leaked == was
        invariant Balanced(content.entries, Uses(chains) + HashesFrom(work, i), leaked, missed)
      {
        ghost var mid, mids := content.entries, Shapes();
        ghost var chains' := chains;
        BatchStep(items, i, old(Records()));
        BatchChunks(env, items, i);
        RowOf(env, io.Content(), rows, segs, i);
        HashesStep(work, i, Uses(chains));
        assert ItemOk(env, keys, blobs, items[i]) && ItemWork(env, blobs, items[i], work[i], segs[i]);
        BatchedNext(env, shardCount, items, i, before, shapes, chains, mids);
        ok := CommitItem(items[i], work[i], rows[i], segs[i], HashesFrom(work, i + 1));
        if !ok {
          WorkHashes(env, blobs, items, work, segs, i);
          LeaveUncounted(HashesFrom(work, i), true);
          FiledKeys(first, content.entries);
          return false, i;
        }
        FiledKept(first, mid, content.entries, {});
        FiledKeys(first, content.entries);
        LeaksStep(env, shardCount, items, i, before, shapes, chains', mids, first.Keys);
        BatchedStep(env, shardCount, items, i, before, shapes, chains', mids, chains, Shapes());
        committed := i + 1;
      }
      assert items[..|items|] == items;
      HashesDone(work, Uses(chains));
      WorkHashes(env, blobs, items, work, segs, |items|);
      FiledKeys(first, content.entries);
      return true, |items|;
    }

    /** Tree, chain and table entry of one item, without attributes and without changing its policy. */
    method CommitItem(it: BatchItem, chunks: seq<ProcessedChunk>, row: Row, ghost segs: seq<Bytes>, ghost rest: multiset<u128>)
        returns (ok: bool)
      requires Sound() && CoreValid() && |toc.entries| + 1 < U32_LIMIT
      requires ItemOk(env, keys, blobs, it) && ItemWork(env, blobs, it, chunks, segs)
      requires RowOk(env, io.Content(), row, segs) && Complete(row)
      requires Balanced(content.entries, Uses(chains) + multiset(HashSeq(chunks)) + rest, leaked, missed)
      modifies this`trees, this`chains, this`chunkCount, this`leaked, content, toc
      ensures Sound() && CoreValid() && Filed(old(content.entries), content.entries, {})
      ensures Routed(shardCount, KeyTouches(env, shardCount, it.key, it.data))
      ensures ok <==> Touched(old(Shapes()), KeyTouches(env, shardCount, it.key, it.data)).Some?
      ensures chunkCount == old(chunkCount) + if ok then |SegmentHashes(env, it.data)| else 0
      ensures !ok ==>
                && chains == old(chains) && trees == old(trees) && leaked == old(leaked) && content.entries == old(content.entries)
                && toc.entries == old(toc.entries) && Records() == old(Records())
                && Balanced(content.entries, Uses(chains) + multiset(HashSeq(chunks)) + rest, leaked, missed)
      ensures ok ==>
                && var p := BatchPut(it);
                && |toc.entries| == |old(toc.entries)| + 1
                && Touched(old(Shapes()), KeyTouches(env, shardCount, it.key, it.data)) == Some(Shapes())
                && chains == ChainAfter(old(chains), env, p)
                && leaked == old(leaked) + LeakOf(PutEvicts(old(chains), env, p), content.entries.Keys)
                && Records() == old(Records()) + [Record(it.key, Tensor(it.dtype, it.shape, it.data), map[], true)]
                && Balanced(content.entries, Uses(chains) + rest, leaked, missed) && (missed == multiset{} ==> leaked == old(leaked))
    {
      hide CoreValid, StorageOk, TreesOk, Balanced, Uses, RowOk, Complete, HashSeq, HoldsAll, SegmentsIn, Utf8.Valid, Filled, Concat, AllStorable;
      hide Records, Filed, ChainAfter, PutEvicts, LeakOf, Touched, KeyTouches, SegmentHashes, WorkOk, Shapes;
      NoAttrs();
      StorageParts();
      RowWhole(env, io.Content(), blobs, chunks, row, segs);
      NoSegments(env, it.data);
      var refs := Filled(row);
      ok := RecordPut(it.key, it.dtype, it.shape, map[], refs, HashSeq(chunks), None, it.data, rest, true);
    }

    /**
     * Many tensors with one append: the records are exactly those of putting the items one by one, up to
     * the first whose tree stops, although duplicates inside the batch are written twice.
     */
    method PutBatch(items: seq<BatchItem>, elapsed: nat) returns (r: Outcome<Result<(), TpxError>>, ghost committed: nat)
      requires Valid() && |toc.entries| + |items| < U32_LIMIT
      requires forall i :: 0 <= i < |items| ==> ItemOk(env, keys, blobs, items[i]) && Fresh(SegmentHashes(env, items[i].data), stale)
      modifies this, io, toc, content
      ensures Valid() && stale == old(stale) && shift == old(shift) && settled == old(settled)
      ensures mode == ReadOnly ==>
                && r == Returned(Failure(ReadOnlyMode)) && Records() == old(Records()) && content.entries == old(content.entries)
                && leaked == old(leaked) && missed == old(missed) && chains == old(chains) && trees == old(trees)
      ensures mode != ReadOnly ==>
                && committed <= |items| && (r.Panicked? <==> committed < |items|) && (r.Returned? ==> r.result == Success(()))
                && Records() == old(Records()) + BatchRecords(items[..committed])
                && BatchDone(env, shardCount, BatchPuts(items), committed,
                             old(chains), old(Shapes()), old(content.entries.Keys), old(missed), old(leaked),
                             chains, Shapes(), content.entries.Keys, missed, leaked)
      ensures r.Returned? && missed == multiset{} ==> leaked == old(leaked)
      ensures mode != ReadOnly ==> chunkCount == old(chunkCount) + ChunksIn(env, BatchPuts(items)[..committed])
      ensures mode != ReadOnly && r.Returned? && items != [] ==>
                BatchWritten(env, toc.entries, chunkCount, old(bytesWrittenSinceLast), elapsed, old(io.Content()), old(io.durable),
                             io.Content(), io.durable, bytesWrittenSinceLast)
      ensures mode == ReadOnly || items == [] ==> io.Content() == old(io.Content())
      ensures CommitStep(old(commitLen), old(io.durable), old(commitEntries))
    {
      hide Trusted, StoreSound, HeaderFormat.HeaderBytes, At, Balanced, TableOk, ChainsOk, ChainsLive, HistoryOf, Uses, Committed;
      hide SegmentsIn, Committable, Utf8.Valid, IndexOf, BatchRecords, TreesOk, BatchDone, Fresh, SegmentHashes, CommitOk, ItemOk;
      hide Records, Shapes, CheckpointRule, BatchWritten, ChunksIn, BatchPuts;
      if mode == ReadOnly {
        return Returned(Failure(ReadOnlyMode)), 0;
      }
      if items == [] {
        TreesParts();
        BatchNone(items, Records());
        NoChunks(env, items);
        BatchNothing(env, shardCount, chains, Shapes(), content.entries.Keys, missed, leaked);
        return Returned(Success(())), 0;
      }
      var ok;
      ok, committed := RecordBatch(items);
      if !ok {
        return Panicked, committed;
      }
      FinishBatch(elapsed, old(bytesWrittenSinceLast), old(io.Content()), old(io.durable));
      return Returned(Success(())), committed;
    }

    /** The checkpoint at the end of a batch, if one is due. */
    method FinishBatch(elapsed: nat, ghost written: nat, ghost log: Bytes, ghost disk: Bytes)
      requires Valid() && mode != ReadOnly
      requires log <= io.Content() && io.durable == disk && bytesWrittenSinceLast - written == |io.Content()| - |log|
      modifies this`bytesWrittenSinceLast, this`commitLen, this`commitEntries, io
      ensures Valid() && Records() == old(Records()) && CommitStep(old(commitLen), old(io.durable), old(commitEntries))
      ensures BatchWritten(env, toc.entries, chunkCount, written, elapsed, log, disk, io.Content(), io.durable, bytesWrittenSinceLast)
    {
      hide Trusted, StoreSound, HeaderFormat.HeaderBytes, At, Balanced, TableOk, ChainsOk, ChainsLive, HistoryOf, Uses, Committed;
      hide IndexOf, TreesOk, Committable, CheckpointRule, Written, Records, CommitOk;
      ghost var stored := io.Content();
      MaybeCheckpoint(elapsed, true);
      IsWritten(env, toc.entries, chunkCount, written, elapsed, log, disk, io.Content(), io.durable, bytesWrittenSinceLast, stored);
    }

    /** Everything of a batch but the checkpoint. */
    method RecordBatch(items: seq<BatchItem>) returns (ok: bool, ghost committed: nat)
      requires Valid() && mode != ReadOnly && |toc.entries| + |items| < U32_LIMIT
      requires forall i :: 0 <= i < |items| ==> ItemOk(env, keys, blobs, items[i]) && Fresh(SegmentHashes(env, items[i].data), stale)
      modifies this`trees, this`chains, this`chunkCount, this`leaked, this`missed, this`bytesWrittenSinceLast
      modifies content, toc, io`file, io`writeBuffer, io`writeBufferStart, io`logicalLen
      ensures Valid() && committed <= |items| && (ok <==> committed == |items|)
      ensures Records() == old(Records()) + BatchRecords(items[..committed])
      ensures BatchDone(env, shardCount, BatchPuts(items), committed,
                        old(chains), old(Shapes()), old(content.entries.Keys), old(missed), old(leaked),
                        chains, Shapes(), content.entries.Keys, missed, leaked)
      ensures ok && missed == multiset{} ==> leaked == old(leaked)
      ensures chunkCount == old(chunkCount) + ChunksIn(env, BatchPuts(items)[..committed]) && old(io.Content()) <= io.Content()
      ensures bytesWrittenSinceLast - old(bytesWrittenSinceLast) == |io.Content()| - |old(io.Content())|
    {
      hide Trusted, StoreSound, HeaderFormat.HeaderBytes, At, Balanced, TableOk, ChainsOk, ChainsLive, HistoryOf, Uses, Committed, ChunksIn;
      hide RowsOk, Complete, SegmentsIn, Utf8.Valid, IndexOf, BatchRecords, Batched, Stops, TreesOk, ItemWork, HashKeys, BatchDone;
      hide HashesIn, EvictedBy, LeakOf, BatchPuts, Fresh, SegmentHashes, Filed, Missing, HashesFrom, ItemOk;
      ghost var log, first, lacking, leaking, before, shapes := io.Content(), content.entries, missed, leaked, chains, Shapes();
      assert forall i :: 0 <= i < |items| ==> ItemOk(env, keys, blobs, items[i]);
      var work, segs := ProcessBatch(items);
      var rows := WriteBatch(items, work, segs);
      TableGrows(env, keys, log, io.Content(), toc.entries);
      ghost var mid := content.entries;
      ok, committed := CommitBatch(items, work, rows, segs);
      BatchAll(env, blobs, shardCount, items, work, segs, committed, before, shapes, first, lacking, leaking,
               mid, chains, Shapes(), content.entries, missed, leaked);
    }

    /** Dedup, one append for everything new, and filing, with the table and chains still untouched. */
    method WriteBatch(items: seq<BatchItem>, work: seq<seq<ProcessedChunk>>, ghost segs: seq<seq<Bytes>>)
        returns (rows: seq<Row>)
      requires StorageOk() && mode != ReadOnly && |items| == |work| == |segs|
      requires forall t :: 0 <= t < |work| ==> ItemWork(env, blobs, items[t], work[t], segs[t]) && Fresh(SegmentHashes(env, items[t].data), stale)
      requires Balanced(content.entries, Uses(chains), leaked, missed)
      modifies this`missed, this`bytesWrittenSinceLast, content, io`file, io`writeBuffer, io`writeBufferStart, io`logicalLen
      ensures StorageOk() && old(io.Content()) <= io.Content()
      ensures RowsOk(env, io.Content(), rows, segs)
      ensures forall t :: 0 <= t < |rows| ==> Complete(rows[t])
      ensures Missing(old(content.entries), content.entries, HashesFrom(work, 0), old(missed), missed)
      ensures Balanced(content.entries, Uses(chains) + HashesFrom(work, 0), leaked, missed)
      ensures bytesWrittenSinceLast - old(bytesWrittenSinceLast) == |io.Content()| - |old(io.Content())|
    {
      hide Trusted, StoreSound, HeaderFormat.HeaderBytes, At, Balanced, Uses, WorkOk, RowsOk, AllCovered, AllPendingOk, Shifted, Complete;
      hide Filed, Unfiled, Missing, Fresh, HashSeq, SegmentHashes, HashesFrom, PendingHashes, Concat;
      ghost var log, before := io.Content(), content.entries;
      var planned, buffer, pending;
      ghost var hits;
      planned, buffer, pending, hits := PlanBatch(items, work, segs);
      ghost var counted := content.entries;
      BalanceShift(before, content.entries, Uses(chains), hits, leaked, missed);
      var base := 0;
      PendingAligned(env, blobs, segs, buffer, pending);
      if buffer != [] {
        base := AppendAligned(buffer);
      }
      assert io.Content() == log + buffer;
      RowsGrow(env, log, io.Content(), planned, segs);
      rows := FileBatch(planned, pending, base, log, buffer, segs, Uses(chains) + hits);
      MissingAll(before, counted, content.entries, pending, hits, HashesFrom(work, 0), old(missed), missed);
      assert Uses(chains) + hits + PendingHashes(pending) == Uses(chains) + HashesFrom(work, 0) by {
        assert PendingHashes(pending) + hits == HashesFrom(work, 0);
      }
    }

    /** The parallel phase, as a map over the items in order. */
    method ProcessBatch(items: seq<BatchItem>) returns (work: seq<seq<ProcessedChunk>>, ghost segs: seq<seq<Bytes>>)
      requires forall i :: 0 <= i < |items| ==> ItemOk(env, keys, blobs, items[i])
      ensures |work| == |segs| == |items|
      ensures forall i :: 0 <= i < |items| ==> ItemWork(env, blobs, items[i], work[i], segs[i])
    {
      hide WorkOk, SegmentsIn, Concat, Utf8.Valid, HashSeq, SegmentHashes;
      work, segs := [], [];
      for i := 0 to |items|
        invariant |work| == |segs| == i
        invariant forall x :: 0 <= x < i ==> ItemWork(env, blobs, items[x], work[x], segs[x])
      {
        assert ItemOk(env, keys, blobs, items[i]);
        var chunks;
        ghost var parts;
        chunks, parts := ProcessItem(items[i].data, items[i].dtype);
        work, segs := work + [chunks], segs + [parts];
      }
    }
  }

  /**
   * A crash and the next start: `image` is the last commit of `e` followed by whatever the crash left.
   * Opened in any mode, the archive holds exactly the history of that commit, with an empty content
   * store, every retained reference still to be counted, and trees without holes.
   */
  method Restart(e: ShardedEngine, image: Bytes, mode: OpenMode, ghost tail: Bytes)
      returns (r: Outcome<Result<ShardedEngine, TpxError>>)
    requires e.Valid() && e.commitLen > 0
    requires var file := e.io.durable[..e.commitLen]; image == file + tail && CleanTail(file, tail)
    ensures r.Returned? && r.result.Success?
    ensures var n := r.result.value;
            && n.Valid() && n.mode == mode && n.Records() == e.CommittedRecords() && n.settled && n.stale == {} && n.shift == map[]
            && n.content.entries == map[] && n.leaked == multiset{} && n.missed == Uses(n.chains) && AllPacked(n.Shapes())
            && n.env == e.env && n.keys == e.keys && n.blobs == e.blobs && n.shardCount == e.shardCount
            && n.commitLen == e.commitLen && n.CommittedRecords() == e.CommittedRecords()
            && n.toc.entries == e.commitEntries && (mode != ReadOnly ==> n.io.Content() == e.io.durable[..e.commitLen])
    ensures fresh(r.result.value) && fresh(r.result.value.io) && fresh(r.result.value.toc) && fresh(r.result.value.content)
  {
    hide Recover, CleanTail, Intact, HistoryOf, TableOk, ChainsOk, StoreSound, Balanced, HeaderFormat.HeaderBytes, Uses, Committed;
    hide AllPacked, ShapesOf, TableStops, Trusted;
    ghost var file := e.io.durable[..e.commitLen];
    e.CrashRecovers(tail);
    r := ShardedEngine.Open(e.env, image, mode, e.keys, e.blobs, file, e.shardCount, e.commitEntries);
  }

  ghost predicate ItemUsable(env: Env, keys: iset<Bytes>, blobs: iset<Bytes>, it: LiveItem) {
    it.key in keys && Utf8.Valid(it.key) && AllStorable(it.attrs) && SegmentsIn(env, blobs, it.tensor.data)
  }

  lemma {:induction false} LiveItemsUsable(env: Env, keys: iset<Bytes>, blobs: iset<Bytes>, h: seq<Record>, view: map<Bytes, Tensor>)
    requires forall i :: 0 <= i < |h| && h[i].live ==>
               h[i].key in view && h[i].key in keys && Utf8.Valid(h[i].key) && AllStorable(h[i].attrs)
    requires forall k :: k in view ==> SegmentsIn(env, blobs, view[k].data)
    ensures forall i :: 0 <= i < |LiveItems(h, view)| ==> ItemUsable(env, keys, blobs, LiveItems(h, view)[i])
  {
    hide Utf8.Valid, AllStorable, SegmentsIn;
    if |h| > 0 {
      LiveItemsUsable(env, keys, blobs, h[..|h| - 1], view);
    }
  }

  lemma PageOnly(file: Bytes, shardCount: u16)
    ensures Backend.Patched(file, 0, HeaderPage(shardCount))[..CHUNK_ALIGN] == HeaderPage(shardCount)
    ensures At(HeaderPage(shardCount), 0, HeaderFormat.HeaderBytes(shardCount, CHUNK_ALIGN))
  {
    hide HeaderFormat.HeaderBytes;
    var c := Backend.Patched(file, 0, HeaderPage(shardCount));
    HeaderOverwrites([], shardCount);
    assert c[0..|HeaderPage(shardCount)|] == HeaderPage(shardCount);
  }

  /**
   * What the cut does to the content store: its chunks were all appended behind the header page, so after
   * it the store is right exactly when it holds nothing.
   */
  lemma StoreAfterCut(env: Env, blobs: iset<Bytes>, shardCount: u16, entries: map<u128, ContentEntry>)
    requires BehindHeader(entries)
    ensures StoreOk(env, blobs, HeaderPage(shardCount), entries) <==> entries == map[]
  {
    hide HeaderFormat.HeaderBytes;
    var page := HeaderPage(shardCount);
    HeaderOverwrites([], shardCount);
    if entries != map[] {
      var h :| h in entries;
      forall blob: Bytes ensures !Holds(env, page, RefOf(entries[h]), blob) {
        PastTheEnd(env, page, RefOf(entries[h]), blob);
      }
      assert !StoredAt(env, blobs, page, h, entries[h]);
    }
  }

  lemma PastTheEnd(env: Env, log: Bytes, c: ChunkRef, blob: Bytes)
    requires c.chunkLen > 0 && c.chunkOffset + c.chunkLen > |log|
    ensures !Holds(env, log, c, blob)
  {
    assert ReadChunk(env, log, c, Float64).Failure?;
  }

  /** What the caller of a batch put provides for each item. */
  ghost predicate ItemOk(env: Env, keys: iset<Bytes>, blobs: iset<Bytes>, it: BatchItem) {
    it.key in keys && Utf8.Valid(it.key) && SegmentsIn(env, blobs, it.data)
  }

  lemma BatchNone(items: seq<BatchItem>, h: seq<Record>)
    ensures h + BatchRecords(items[..0]) == h
  {
  }

  lemma BatchStep(items: seq<BatchItem>, i: nat, h: seq<Record>)
    requires i < |items|
    ensures h + BatchRecords(items[..i + 1])
            == h + BatchRecords(items[..i])
               + [Record(items[i].key, Tensor(items[i].dtype, items[i].shape, items[i].data), map[], true)]
  {
    assert items[..i + 1][..i] == items[..i];
  }

  lemma NothingElse(a: multiset<u128>, b: multiset<u128>)
    ensures a + b + multiset{} == a + b && a + multiset{} == a
  {
  }

  lemma NoAttrs()
    ensures AllStorable(map[])
  {
  }

  lemma PendingAligned(env: Env, blobs: iset<Bytes>, segs: seq<seq<Bytes>>, buffer: Bytes, ps: seq<PendingWrite>)
    requires AllPendingOk(env, blobs, segs, buffer, ps)
    ensures |buffer| % CHUNK_ALIGN == 0 && (buffer == [] ==> ps == [])
  {
  }

  lemma RowsGrow(env: Env, log: Bytes, longer: Bytes, rows: seq<Row>, segs: seq<seq<Bytes>>)
    requires RowsOk(env, log, rows, segs) && log <= longer
    ensures RowsOk(env, longer, rows, segs)
  {
    hide RowOk;
    forall t | 0 <= t < |rows| ensures RowOk(env, longer, rows[t], segs[t]) {
      RowGrows(env, log, longer, rows[t], segs[t]);
    }
  }

  lemma TrustedParts(env: Env, keys: iset<Bytes>, blobs: iset<Bytes>)
    requires Trusted(env, keys, blobs)
    ensures Lawful(env) && Injective(env.keyHash, keys) && Injective(env.contentHash, blobs)
  {
  }

  lemma CountedOnce(entries: map<u128, ContentEntry>, h: u128)
    requires h in entries
    ensures Shifted(entries, entries[h := entries[h].(refcount := Wrap32(Count(entries, h) as int + 1))], multiset{h})
  {
  }

  function Ids(n: nat): seq<nat> {
    seq(n, i requires 0 <= i => i)
  }

  /** The entries of a key that are not tombstoned. */
  function CountLive(es: seq<TocEntry>, key: Bytes): nat {
    if |es| == 0 then 0
    else CountLive(es[..|es| - 1], key) + if es[|es| - 1].key == key && es[|es| - 1].tombstone == 0 then 1 else 0
  }

  lemma VersionEntries(env: Env, log: Bytes, es: seq<TocEntry>, key: Bytes)
    requires Readable(env, log, es)
    ensures var rs := KeyRecords(HistoryOf(env, log, es), key);
            && |EntriesOf(es, key)| == |rs|
            && forall v :: 0 <= v < |rs| ==> ReadTensor(env, log, EntriesOf(es, key)[v]) == Success(rs[v].tensor)
  {
    hide ReadTensor, EntriesOf, KeyRecords;
    EntriesAreRecords(env, log, es, key);
    var rs := HistoryOf(env, log, EntriesOf(es, key));
    forall v | 0 <= v < |rs| ensures ReadTensor(env, log, EntriesOf(es, key)[v]) == Success(rs[v].tensor) {
      assert rs[v] == RecordOf(env, log, EntriesOf(es, key)[v]);
    }
  }

  /**
   * What a listed version id reads. `get_version` takes the id as a position among all entries of
   * the key, so it returns the v-th live put when the key was never deleted; after a delete and a
   * new put, it returns a deleted tensor exactly for the ids below the number of dead entries.
   */
  lemma VersionsAligned(h: seq<Record>, key: Bytes, v: nat)
    requires DeadFirst(h) && v < |LiveRecords(h, key)|
    ensures 0 <= DeadCount(h, key) && v < |KeyRecords(h, key)|
    ensures LiveRecords(h, key)[v] == KeyRecords(h, key)[DeadCount(h, key) + v]
    ensures KeyRecords(h, key)[v].live <==> v >= DeadCount(h, key)
    ensures DeadCount(h, key) == 0 ==> KeyRecords(h, key)[v] == LiveRecords(h, key)[v]
  {
    hide LiveRecords, KeyRecords;
    LiveAreLast(h, key);
  }

  /** Put, delete, put again: version 0 of the key is still the deleted tensor. */
  lemma StaleVersion(key: Bytes, t: Tensor, u: Tensor)
    requires t != u
    ensures var h := Dead([Record(key, t, map[], true)], key) + [Record(key, u, map[], true)];
            && LiveRecords(h, key) == [h[1]] && View(h) == map[key := u]
            && KeyRecords(h, key)[0].tensor == t
  {
    var a, b := Record(key, t, map[], false), Record(key, u, map[], true);
    var h := Dead([Record(key, t, map[], true)], key) + [b];
    assert h == [a, b] && h[..1] == [a] && [a][..0] == [];
    assert View([a]) == map[] && KeyRecords([a], key) == [a] && LiveRecords([a], key) == [];
  }

  /** The matching entries are, by key, the current keys with the prefix. */
  ghost predicate Matches(view: map<Bytes, Tensor>, matching: seq<TocEntry>, prefix: Bytes) {
    && (forall j :: 0 <= j < |matching| ==> matching[j].key in view && prefix <= matching[j].key)
    && (forall k :: k in view && prefix <= k ==> exists j :: 0 <= j < |matching| && matching[j].key == k)
  }

  /** `results` holds the current tensors of the first `i` matching entries. */
  ghost predicate Collected(results: map<Bytes, Tensor>, view: map<Bytes, Tensor>, matching: seq<TocEntry>, i: nat)
    requires i <= |matching|
  {
    && (forall k :: k in results <==> exists j :: 0 <= j < i && matching[j].key == k)
    && (forall k :: k in results ==> k in view && results[k] == view[k])
  }

  lemma CollectedNone(view: map<Bytes, Tensor>, matching: seq<TocEntry>)
    ensures Collected(map[], view, matching, 0)
  {
  }

  lemma CollectedOne(results: map<Bytes, Tensor>, view: map<Bytes, Tensor>, matching: seq<TocEntry>, i: nat, prefix: Bytes)
    requires i < |matching| && Collected(results, view, matching, i) && Matches(view, matching, prefix)
    ensures matching[i].key in view
    ensures Collected(results[matching[i].key := view[matching[i].key]], view, matching, i + 1)
  {
    var after := results[matching[i].key := view[matching[i].key]];
    forall k ensures k in after <==> exists j :: 0 <= j < i + 1 && matching[j].key == k {
      if k == matching[i].key {
        assert matching[i].key == k;
      }
    }
  }

  lemma CollectedAll(results: map<Bytes, Tensor>, view: map<Bytes, Tensor>, matching: seq<TocEntry>, prefix: Bytes)
    requires Collected(results, view, matching, |matching|) && Matches(view, matching, prefix)
    ensures results == map k | k in view && prefix <= k :: view[k]
  {
  }

  lemma PrefixIsCurrent(env: Env, keys: iset<Bytes>, log: Bytes, es: seq<TocEntry>, prefix: Bytes, matching: seq<TocEntry>)
    requires TableOk(env, keys, log, es)
    requires forall e :: e in matching <==> prefix <= e.key && e.key !in {} && Find(es, e.key) == Some(e)
    ensures Matches(View(HistoryOf(env, log, es)), matching, prefix)
  {
    hide View, Find, HistoryOf, Readable, EntryOk;
    var v := View(HistoryOf(env, log, es));
    forall j | 0 <= j < |matching| ensures matching[j].key in v && prefix <= matching[j].key {
      assert matching[j] in matching;
      FindIsView(env, log, es, matching[j].key);
    }
    forall k | k in v && prefix <= k ensures exists j :: 0 <= j < |matching| && matching[j].key == k {
      FindIsView(env, log, es, k);
      var e := Find(es, k).value;
      assert e in matching;
    }
  }

  /** Header, table, bounds, checksum, codec and filter, in the order the reader checks them. */
  method DecodeBytes(env: Env, chunkBytes: Bytes, offset: nat, dtype: DTypeId) returns (r: Result<Bytes, TpxError>)
    ensures r == DecodeChunk(env, chunkBytes, offset, dtype)
    ensures forall error :: Corrupt(env, chunkBytes, offset, error) || Misfit(env, chunkBytes, error) ==> r == Failure(error)
    ensures forall segment :: Sealed(env, chunkBytes, dtype, segment) <==> r == Success(segment)
  {
    hide ChunkFormat.Parse, Corrupt, Misfit, Sealed;
    DecodingIsHonest(env, chunkBytes, offset, dtype);
    var parsed := ChunkFormat.Deserialize(chunkBytes);
    if parsed.Failure? {
      return Failure(parsed.error);
    }
    var (header, table) := parsed.value;
    var payloadStart := CHUNK_HEADER_SIZE + |table| * 4;
    var compressedLen := 0;
    for i := 0 to |table|
      invariant compressedLen == Sum(table[..i])
    {
      assert table[..i + 1][..i] == table[..i];
      compressedLen := compressedLen + table[i];
    }
    assert table[..|table|] == table;
    if payloadStart + compressedLen > |chunkBytes| {
      return Failure(BufferTooSmall(payloadStart + compressedLen, |chunkBytes|));
    }
    var payload := chunkBytes[payloadStart..payloadStart + compressedLen];
    var actual := env.crc(payload);
    if actual != header.payloadCrc {
      return Failure(ChunkCrcMismatch(offset, header.payloadCrc, actual));
    }
    var decompressed := RunCodec(env, header.codec, payload, header.uncompressedLen, dtype);
    if decompressed.Failure? {
      return Failure(decompressed.error);
    }
    var reverted := Filters.RevertFilter(header.filter, decompressed.value, dtype);
    return Success(reverted);
  }

  /** Walks the table from its end, taking each key at its last entry. */
  method LiveKeys(entries: seq<TocEntry>) returns (result: seq<Bytes>)
    ensures result == KeysFrom(entries, {})
  {
    var seen: set<Bytes> := {};
    var reversed: seq<Bytes> := [];
    var i := |entries|;
    assert entries[..i] == entries;
    while i > 0
      invariant 0 <= i <= |entries|
      invariant KeysFrom(entries[..i], seen) + Reverse(reversed) == KeysFrom(entries, {})
    {
      i := i - 1;
      assert entries[..i + 1][..i] == entries[..i];
      var entry := entries[i];
      if entry.key != [] && entry.key !in seen {
        seen := seen + {entry.key};
        if entry.tombstone == 0 {
          assert Reverse(reversed + [entry.key]) == [entry.key] + Reverse(reversed);
          reversed := reversed + [entry.key];
        }
      }
    }
    result := Reverse(reversed);
  }

  function Reverse(s: seq<Bytes>): (r: seq<Bytes>)
    ensures |r| == |s|
  {
    seq(|s|, i requires 0 <= i < |s| => s[|s| - 1 - i])
  }

  lemma KeysAreCurrent(env: Env, log: Bytes, es: seq<TocEntry>, result: seq<Bytes>)
    requires Readable(env, log, es)
    requires forall k :: k in result <==> k != [] && k !in {} && Find(es, k).Some?
    ensures forall k :: k in result <==> k != [] && k in View(HistoryOf(env, log, es))
  {
    hide View, Find, HistoryOf;
    forall k ensures k in result <==> k != [] && k in View(HistoryOf(env, log, es)) {
      FindIsView(env, log, es, k);
    }
  }

  lemma CurrentEntry(env: Env, keys: iset<Bytes>, blobs: iset<Bytes>, log: Bytes, es: seq<TocEntry>, key: Bytes)
    requires Trusted(env, keys, blobs) && TableOk(env, keys, log, es)
    ensures Readable(env, log, es)
    ensures var v := View(HistoryOf(env, log, es));
            var e := LookupIn(es, IndexOf(es), env.keyHash(key), key);
            && (e.Some? <==> key in v)
            && (key in v ==> ReadTensor(env, log, e.value) == Success(v[key]))
  {
    hide View, Find, HistoryOf, IndexOf, LookupIn, ReadTensor;
    LookupIsCurrent(env, keys, log, es, key);
  }

  lemma BalanceLeak(entries: map<u128, ContentEntry>, kept: multiset<u128>, dropped: multiset<u128>,
                    leaked: multiset<u128>, missed: multiset<u128>)
    requires Balanced(entries, kept + dropped, leaked, missed)
    ensures Balanced(entries, kept, leaked + dropped, missed)
  {
    forall h ensures Net(kept, leaked + dropped, missed, h) == Net(kept + dropped, leaked, missed, h) {
    }
  }

  lemma BlockSize(toc: Bytes, footer: FooterFormat.Footer)
    requires |footer.magicEnd| == 4
    ensures |Block(toc, footer)| % CHUNK_ALIGN == 0
  {
  }

  lemma TableCommits(env: Env, keys: iset<Bytes>, log: Bytes, count: u16, es: seq<TocEntry>, footer: FooterFormat.Footer)
    requires HEADER_SIZE <= |log| < U64_LIMIT && |log| % CHUNK_ALIGN == 0
    requires At(log, 0, HeaderFormat.HeaderBytes(count, CHUNK_ALIGN))
    requires TableOk(env, keys, log + Block(EncodeToc(es), footer), es)
    requires AllFit(es)
    requires footer.tocOffset == |log| && |footer.magicEnd| == 4
    requires footer.magicEnd == MAGIC_END_FINAL || footer.magicEnd == MAGIC_END_CHECKPOINT
    ensures Committed(log + Block(EncodeToc(es), footer), count, es)
  {
    hide *;
    TableTyped(env, keys, log + Block(EncodeToc(es), footer), es);
    BlockCommits(log, count, es, footer);
  }

  lemma TableTyped(env: Env, keys: iset<Bytes>, log: Bytes, es: seq<TocEntry>)
    requires TableOk(env, keys, log, es)
    ensures forall e :: e in es ==> Typed(e)
  {
    hide Typed;
    forall e | e in es ensures Typed(e) {
      var i :| 0 <= i < |es| && es[i] == e;
      assert EntryOk(env, keys, es[i]);
    }
  }

  /** The uses of all chains after one of them took a new version and evicted old ones. */
  lemma CommitUses(chains: Chains, key: Bytes, chain: VersionChain, chain': VersionChain, dtype: DTypeId, shape: seq<u32>,
                   attrs: AttrMap, hashes: seq<u128>, evicted: seq<u128>, rest: multiset<u128>)
    requires chain.versions == if key in chains then chains[key].versions else []
    requires var p := Pushed(chain, dtype, shape, attrs, hashes); chain' == Retained(p) && evicted == Evicted(p)
    ensures Uses(chains) + multiset(hashes) + rest == Uses(chains[key := chain']) + rest + multiset(evicted)
  {
    hide Uses, Retained, Evicted, Pushed;
    AppendConserves(chain, dtype, shape, attrs, hashes);
    UsesUpdate(chains, key, chain');
    assert multiset(HashesOf(chain.versions)) == UsesOf(chains, key);
    assert Uses(chains[key := chain']) + UsesOf(chains, key) == Uses(chains) + ChainHashes(chain');
    assert UsesOf(chains, key) + multiset(hashes) == ChainHashes(chain') + multiset(evicted);
    Cancel(Uses(chains[key := chain']), UsesOf(chains, key), Uses(chains), ChainHashes(chain'), multiset(hashes), multiset(evicted));
  }

  lemma Cancel(a: multiset<u128>, b: multiset<u128>, c: multiset<u128>, d: multiset<u128>, e: multiset<u128>, f: multiset<u128>)
    requires a + b == c + d && b + e == d + f
    ensures c + e == a + f
  {
    forall h ensures (c + e)[h] == (a + f)[h] {
      assert (a + b)[h] == (c + d)[h] && (b + e)[h] == (d + f)[h];
    }
  }

  /** What the chunker promises about the size of a segment, and the caller about its blob. */
  lemma SegmentUsable(env: Env, blobs: iset<Bytes>, data: Bytes, i: nat)
    requires SegmentsIn(env, blobs, data)
    requires i < |Cdc.SegmentsFrom(data, 0, Cdc.DEFAULT_CONFIG, env.contentHash)|
    ensures var s := Cdc.SegmentsFrom(data, 0, Cdc.DEFAULT_CONFIG, env.contentHash)[i];
            s.offset + s.len <= |data| ==> s.len <= MAX_SEGMENT && data[s.offset..s.offset + s.len] in blobs
  {
    hide Cdc.SegmentsFrom;
    CdcProperties.SegmentSizes(data, 0, Cdc.DEFAULT_CONFIG, env.contentHash, i);
  }
}

// The engine's invariant as statements about values, and the lemmas that its methods use
// (crates/tpx-shard/src/engine.rs).

module EngineState {
  import opened Wrappers
  import opened Types
  import opened AttrsFormat
  import opened TocFormat
  import opened TocIndex
  import opened ChunkIo
  import opened History
  import opened ContentStoreModel
  import opened VersionChainModel
  import opened Ledger
  import Utf8
  import Cdc

  // ---------- the table ----------

  /** A hash that does not collide on the values in use. */
  ghost predicate Injective<H>(f: Bytes -> H, used: iset<Bytes>) {
    forall a, b :: a in used && b in used && f(a) == f(b) ==> a == b
  }

  ghost predicate EntryOk(env: Env, keys: iset<Bytes>, e: TocEntry) {
    && e.keyHash == env.keyHash(e.key)
    && e.key in keys
    && Typed(e)
  }

  /** Every entry is filed under the hash of its key and reads back, and deletes reached back. */
  ghost predicate TableOk(env: Env, keys: iset<Bytes>, log: Bytes, es: seq<TocEntry>) {
    && |es| < U32_LIMIT
    && (forall i :: 0 <= i < |es| ==> EntryOk(env, keys, es[i]))
    && Readable(env, log, es)
    && DeadFirst(HistoryOf(env, log, es))
  }

  lemma {:induction false} ShadowWitness(es: seq<TocEntry>, hash: u64, key: Bytes)
    requires Shadowed(es, hash, key)
    ensures exists i :: 0 <= i < |es| && es[i].keyHash == hash && es[i].key != key
  {
    if es[|es| - 1].keyHash != hash {
      ShadowWitness(es[..|es| - 1], hash, key);
    }
  }

  /** Under a collision-free key hash, a lookup through the index is the current tensor. */
  lemma LookupIsCurrent(env: Env, keys: iset<Bytes>, log: Bytes, es: seq<TocEntry>, key: Bytes)
    requires TableOk(env, keys, log, es) && Injective(env.keyHash, keys)
    ensures Readable(env, log, es)
    ensures LookupIn(es, IndexOf(es), env.keyHash(key), key) == Find(es, key)
    ensures var v := View(HistoryOf(env, log, es));
            && (Find(es, key).Some? <==> key in v)
            && (key in v ==> ReadTensor(env, log, Find(es, key).value) == Success(v[key]))
  {
    hide ReadTensor, LookupIn, IndexOf, Find, View;
    FindIsView(env, log, es, key);
    var hash := env.keyHash(key);
    if Find(es, key).Some? {
      var j :| 0 <= j < |es| && es[j] == Find(es, key).value;
      assert EntryOk(env, keys, es[j]);
      forall i | 0 <= i < |es| && es[i].keyHash == hash ensures es[i].key == key {
        assert EntryOk(env, keys, es[i]);
      }
      if Shadowed(es, hash, key) {
        ShadowWitness(es, hash, key);
        assert false;
      }
    }
    LookupIsFind(es, hash, key);
  }

  lemma TableGrows(env: Env, keys: iset<Bytes>, log: Bytes, longer: Bytes, es: seq<TocEntry>)
    requires TableOk(env, keys, log, es) && log <= longer
    ensures TableOk(env, keys, longer, es) && HistoryOf(env, longer, es) == HistoryOf(env, log, es)
  {
    hide EntryOk;
    HistoryGrows(env, log, longer, es);
  }

  lemma TableAppend(env: Env, keys: iset<Bytes>, log: Bytes, es: seq<TocEntry>, e: TocEntry)
    requires TableOk(env, keys, log, es) && EntryOk(env, keys, e) && |es| + 1 < U32_LIMIT
    requires ReadTensor(env, log, e).Success? && e.tombstone == 0
    ensures TableOk(env, keys, log, es + [e])
    ensures HistoryOf(env, log, es + [e]) == HistoryOf(env, log, es) + [RecordOf(env, log, e)]
  {
    hide EntryOk, ReadTensor;
    HistoryAppend(env, log, es, e);
  }

  lemma DeadKeepsOrder(h: seq<Record>, key: Bytes)
    requires DeadFirst(h)
    ensures DeadFirst(Dead(h, key))
  {
  }

  lemma TableTombstone(env: Env, keys: iset<Bytes>, log: Bytes, es: seq<TocEntry>, key: Bytes)
    requires TableOk(env, keys, log, es)
    ensures TableOk(env, keys, log, Tombstoned(es, key))
    ensures HistoryOf(env, log, Tombstoned(es, key)) == Dead(HistoryOf(env, log, es), key)
  {
    hide ReadTensor, Utf8.Valid, AllStorable;
    HistoryTombstone(env, log, es, key);
    DeadKeepsOrder(HistoryOf(env, log, es), key);
    forall i | 0 <= i < |es| ensures EntryOk(env, keys, Tombstoned(es, key)[i]) {
      assert EntryOk(env, keys, es[i]);
    }
  }

  /** The hashes of the segments that `data` is cut into, in order. */
  function SegmentHashes(env: Env, data: Bytes): (hs: seq<u128>)
    ensures |hs| == |Cdc.SegmentsFrom(data, 0, Cdc.DEFAULT_CONFIG, env.contentHash)|
  {
    var segs := Cdc.SegmentsFrom(data, 0, Cdc.DEFAULT_CONFIG, env.contentHash);
    seq(|segs|, i requires 0 <= i < |segs| => segs[i].contentHash)
  }

  function HashSet(hs: seq<u128>): set<u128> {
    set h | h in hs
  }

  // ---------- the content store ----------

  function RefOf(c: ContentEntry): ChunkRef {
    ChunkRef(c.shardId, c.chunkOffset, c.chunkLen)
  }

  /** The chunk filed under `h` reads back as a used blob with that hash. */
  ghost predicate StoredAt(env: Env, blobs: iset<Bytes>, log: Bytes, h: u128, c: ContentEntry) {
    exists blob: Bytes :: blob in blobs && env.contentHash(blob) == h && Holds(env, log, RefOf(c), blob)
  }

  ghost predicate StoreOk(env: Env, blobs: iset<Bytes>, log: Bytes, entries: map<u128, ContentEntry>) {
    forall h :: h in entries ==> StoredAt(env, blobs, log, h, entries[h])
  }

  /** Chunks are written behind the header page. */
  ghost predicate BehindHeader(entries: map<u128, ContentEntry>) {
    forall h :: h in entries ==> entries[h].chunkOffset >= CHUNK_ALIGN && entries[h].chunkLen > 0
  }

  /** Entries once filed keep their references. */
  ghost predicate RefsKept(before: map<u128, ContentEntry>, after: map<u128, ContentEntry>) {
    forall h :: h in before ==> h in after && RefOf(after[h]) == RefOf(before[h])
  }

  /** Exactly `added` is filed besides. */
  ghost predicate Filed(before: map<u128, ContentEntry>, after: map<u128, ContentEntry>, added: set<u128>) {
    after.Keys == before.Keys + added && RefsKept(before, after)
  }

  lemma FiledSame(entries: map<u128, ContentEntry>)
    ensures Filed(entries, entries, {})
  {
  }

  lemma FiledKept(a: map<u128, ContentEntry>, b: map<u128, ContentEntry>, c: map<u128, ContentEntry>, x: set<u128>)
    requires Filed(a, b, x) && Filed(b, c, {})
    ensures Filed(a, c, x)
  {
  }

  lemma FiledKeys(a: map<u128, ContentEntry>, b: map<u128, ContentEntry>)
    requires Filed(a, b, {})
    ensures a.Keys == b.Keys
  {
  }

  lemma FiledAgain(a: map<u128, ContentEntry>, b: map<u128, ContentEntry>, h: u128)
    requires Filed(a, b, {h}) && h in a
    ensures Filed(a, b, {}) && a.Keys == b.Keys
  {
  }

  lemma FiledTwice(entries: map<u128, ContentEntry>, h: u128)
    requires h in entries
    ensures Filed(entries, entries, {h})
  {
  }

  lemma FiledJoin(a: map<u128, ContentEntry>, b: map<u128, ContentEntry>, c: map<u128, ContentEntry>, x: set<u128>, y: set<u128>)
    requires Filed(a, b, x) && Filed(b, c, y)
    ensures Filed(a, c, x + y)
  {
  }

  /** None of the hashes is one whose chunk a compaction cut off. */
  predicate Fresh(hashes: seq<u128>, stale: set<u128>) {
    forall i :: 0 <= i < |hashes| ==> hashes[i] !in stale
  }

  /** Every hash is filed already. */
  predicate AllFiled(hashes: seq<u128>, entries: map<u128, ContentEntry>) {
    forall i :: 0 <= i < |hashes| ==> hashes[i] in entries
  }

  function FiledRefs(hashes: seq<u128>, entries: map<u128, ContentEntry>): (refs: seq<ChunkRef>)
    requires AllFiled(hashes, entries)
    ensures |refs| == |hashes|
  {
    seq(|hashes|, i requires 0 <= i < |hashes| => RefOf(entries[hashes[i]]))
  }

  lemma StoreGrows(env: Env, blobs: iset<Bytes>, log: Bytes, longer: Bytes, entries: map<u128, ContentEntry>)
    requires StoreOk(env, blobs, log, entries) && log <= longer
    ensures StoreOk(env, blobs, longer, entries)
  {
    hide Holds;
    forall h | h in entries ensures StoredAt(env, blobs, longer, h, entries[h]) {
      var blob: Bytes :| blob in blobs && env.contentHash(blob) == h && Holds(env, log, RefOf(entries[h]), blob);
      HoldsGrows(env, log, longer, RefOf(entries[h]), blob);
    }
  }

  /** A dedup hit refers to the very bytes that were asked for. */
  lemma HitHolds(env: Env, blobs: iset<Bytes>, log: Bytes, entries: map<u128, ContentEntry>, segment: Bytes)
    requires StoreOk(env, blobs, log, entries) && Injective(env.contentHash, blobs)
    requires segment in blobs && env.contentHash(segment) in entries
    ensures Holds(env, log, RefOf(entries[env.contentHash(segment)]), segment)
  {
    hide Holds;
    var h := env.contentHash(segment);
    assert StoredAt(env, blobs, log, h, entries[h]);
  }

  lemma StoreInsert(env: Env, blobs: iset<Bytes>, log: Bytes, entries: map<u128, ContentEntry>, c: ContentEntry, segment: Bytes)
    requires StoreOk(env, blobs, log, entries)
    requires segment in blobs && Holds(env, log, RefOf(c), segment)
    ensures StoreOk(env, blobs, log, entries[env.contentHash(segment) := c])
  {
    hide Holds;
    var h := env.contentHash(segment);
    assert StoredAt(env, blobs, log, h, c);
  }

  lemma StoreRecount(env: Env, blobs: iset<Bytes>, log: Bytes, entries: map<u128, ContentEntry>, h: u128, n: u32)
    requires StoreOk(env, blobs, log, entries) && h in entries
    ensures StoreOk(env, blobs, log, entries[h := entries[h].(refcount := n)])
  {
    hide Holds;
    assert StoredAt(env, blobs, log, h, entries[h]);
    assert RefOf(entries[h].(refcount := n)) == RefOf(entries[h]);
  }

  /** What the store says of `log`: chunks behind the header, right except under the hashes cut off. */
  ghost predicate StoreSound(env: Env, blobs: iset<Bytes>, log: Bytes, entries: map<u128, ContentEntry>, stale: set<u128>) {
    StoreOk(env, blobs, log, entries - stale) && BehindHeader(entries) && stale <= entries.Keys
  }

  lemma SoundGrows(env: Env, blobs: iset<Bytes>, log: Bytes, longer: Bytes, entries: map<u128, ContentEntry>, stale: set<u128>)
    requires StoreSound(env, blobs, log, entries, stale) && log <= longer
    ensures StoreSound(env, blobs, longer, entries, stale)
  {
    hide StoreOk, BehindHeader;
    StoreGrows(env, blobs, log, longer, entries - stale);
  }

  lemma SoundHit(env: Env, blobs: iset<Bytes>, log: Bytes, entries: map<u128, ContentEntry>, stale: set<u128>, segment: Bytes)
    requires StoreSound(env, blobs, log, entries, stale) && Injective(env.contentHash, blobs)
    requires segment in blobs && env.contentHash(segment) in entries && env.contentHash(segment) !in stale
    ensures Holds(env, log, RefOf(entries[env.contentHash(segment)]), segment)
  {
    hide StoreOk, Holds, BehindHeader;
    HitHolds(env, blobs, log, entries - stale, segment);
  }

  lemma SoundRecount(env: Env, blobs: iset<Bytes>, log: Bytes, entries: map<u128, ContentEntry>, stale: set<u128>, h: u128, n: u32)
    requires StoreSound(env, blobs, log, entries, stale) && h in entries
    ensures var after := entries[h := entries[h].(refcount := n)];
            StoreSound(env, blobs, log, after, stale) && Filed(entries, after, {}) && Filed(entries, after, {h})
  {
    hide StoreOk, Holds;
    var after := entries[h := entries[h].(refcount := n)];
    if h in stale {
      assert after - stale == entries - stale;
    } else {
      StoreRecount(env, blobs, log, entries - stale, h, n);
      assert after - stale == (entries - stale)[h := entries[h].(refcount := n)];
    }
  }

  lemma SoundInsert(env: Env, blobs: iset<Bytes>, log: Bytes, entries: map<u128, ContentEntry>, stale: set<u128>,
                    c: ContentEntry, segment: Bytes)
    requires StoreSound(env, blobs, log, entries, stale) && env.contentHash(segment) !in entries
    requires segment in blobs && Holds(env, log, RefOf(c), segment) && c.chunkOffset >= CHUNK_ALIGN && c.chunkLen > 0
    ensures var after := entries[env.contentHash(segment) := c];
            StoreSound(env, blobs, log, after, stale) && Filed(entries, after, {env.contentHash(segment)})
  {
    hide StoreOk, Holds;
    var h := env.contentHash(segment);
    StoreInsert(env, blobs, log, entries - stale, c, segment);
    assert entries[h := c] - stale == (entries - stale)[h := c];
  }

  lemma NothingStored(env: Env, blobs: iset<Bytes>, log: Bytes)
    ensures StoreSound(env, blobs, log, map[], {})
  {
  }

  /** With every filed chunk given up, the store is sound over any log. */
  lemma AllGivenUp(env: Env, blobs: iset<Bytes>, log: Bytes, other: Bytes, entries: map<u128, ContentEntry>, stale: set<u128>)
    requires StoreSound(env, blobs, log, entries, stale)
    ensures StoreSound(env, blobs, other, entries, entries.Keys)
  {
    assert entries - entries.Keys == map[];
  }

  // ---------- reading whole tensors ----------

  /** The references read back as `data`, whatever dtype the reader asks with. */
  ghost predicate HoldsAll(env: Env, log: Bytes, rs: seq<ChunkRef>, data: Bytes) {
    forall d: DTypeId :: ReadChunks(env, log, rs, d) == Success(data)
  }

  lemma HoldsAllGrows(env: Env, log: Bytes, longer: Bytes, rs: seq<ChunkRef>, data: Bytes)
    requires HoldsAll(env, log, rs, data) && log <= longer
    ensures HoldsAll(env, longer, rs, data)
  {
    hide ReadChunks;
    forall d: DTypeId ensures ReadChunks(env, longer, rs, d) == Success(data) {
      ReadChunksGrows(env, log, longer, rs, d);
    }
  }

  lemma HoldsAllSnoc(env: Env, log: Bytes, rs: seq<ChunkRef>, r: ChunkRef, front: Bytes, segment: Bytes)
    requires HoldsAll(env, log, rs, front) && Holds(env, log, r, segment)
    ensures HoldsAll(env, log, rs + [r], front + segment)
  {
    hide ReadChunk;
    forall d: DTypeId ensures ReadChunks(env, log, rs + [r], d) == Success(front + segment) {
      assert (rs + [r])[..|rs|] == rs;
    }
  }

  // ---------- version chains ----------

  /** By how much a key's ids run ahead of its records, since a compaction restarted the table. */
  function Lead(shift: map<Bytes, nat>, k: Bytes): nat {
    if k in shift then shift[k] else 0
  }

  ghost predicate ChainOk(h: seq<Record>, chains: Chains, shift: map<Bytes, nat>, k: Bytes) {
    && (k !in chains ==> |LiveRecords(h, k)| == 0 && k !in shift)
    && (k in chains ==> |chains[k].versions| > 0 && IdsEndAt(chains[k].versions, Lead(shift, k) + |LiveRecords(h, k)|))
  }

  /** A live key has a chain, and its ids are consecutive and end at its lead plus its live records. */
  ghost predicate ChainsOk(h: seq<Record>, chains: Chains, shift: map<Bytes, nat>) {
    forall k :: ChainOk(h, chains, shift, k)
  }

  /** Every chain belongs to a live key. */
  ghost predicate ChainsLive(h: seq<Record>, chains: Chains) {
    forall k :: k in chains ==> |LiveRecords(h, k)| > 0
  }

  /** The chain of `key` after a put: a given policy replaces the one it had, a new chain keeps the latest. */
  function Pushing(chains: Chains, key: Bytes, policy: Option<RetentionPolicy>): VersionChain {
    var chain := if key in chains then chains[key] else VersionChain(key, [], KeepLatest);
    if policy.Some? then chain.(retention := policy.value) else chain
  }

  function Chained(chains: Chains, key: Bytes, policy: Option<RetentionPolicy>, dtype: DTypeId, shape: seq<u32>,
                   attrs: AttrMap, hashes: seq<u128>): VersionChain {
    Retained(Pushed(Pushing(chains, key, policy), dtype, shape, attrs, hashes))
  }

  /** The hashes that this put evicts. */
  function Evicting(chains: Chains, key: Bytes, policy: Option<RetentionPolicy>, dtype: DTypeId, shape: seq<u32>,
                    attrs: AttrMap, hashes: seq<u128>): seq<u128> {
    Evicted(Pushed(Pushing(chains, key, policy), dtype, shape, attrs, hashes))
  }

  lemma ChainsPut(h: seq<Record>, chains: Chains, shift: map<Bytes, nat>, r: Record, c: VersionChain, hashes: seq<u128>)
    requires ChainsOk(h, chains, shift) && r.live
    requires c.versions == (if r.key in chains then chains[r.key].versions else [])
    ensures ChainsOk(h + [r], chains[r.key := Retained(Pushed(c, r.tensor.dtype, r.tensor.shape, r.attrs, hashes))], shift)
  {
    hide LiveRecords;
    var n := Lead(shift, r.key) + |LiveRecords(h, r.key)|;
    assert ChainOk(h, chains, shift, r.key);
    AppendKeepsIds(c, n, r.tensor.dtype, r.tensor.shape, r.attrs, hashes);
    var after := chains[r.key := Retained(Pushed(c, r.tensor.dtype, r.tensor.shape, r.attrs, hashes))];
    forall k ensures ChainOk(h + [r], after, shift, k) {
      assert ChainOk(h, chains, shift, k);
      LiveSnoc(h, r, k);
    }
  }

  lemma ChainsLivePut(h: seq<Record>, chains: Chains, r: Record, c: VersionChain)
    requires ChainsLive(h, chains) && r.live
    ensures ChainsLive(h + [r], chains[r.key := c])
  {
    hide LiveRecords;
    forall k | k in chains[r.key := c] ensures |LiveRecords(h + [r], k)| > 0 {
      LiveSnoc(h, r, k);
    }
  }

  lemma LiveSnoc(h: seq<Record>, r: Record, k: Bytes)
    ensures LiveRecords(h + [r], k) == if r.key == k && r.live then LiveRecords(h, k) + [r] else LiveRecords(h, k)
  {
    assert (h + [r])[..|h|] == h;
  }

  lemma ChainsDelete(h: seq<Record>, chains: Chains, shift: map<Bytes, nat>, key: Bytes)
    requires ChainsOk(h, chains, shift)
    ensures ChainsOk(Dead(h, key), chains - {key}, shift - {key})
    ensures ChainsLive(h, chains) ==> ChainsLive(Dead(h, key), chains - {key})
  {
    hide LiveRecords;
    forall k ensures ChainOk(Dead(h, key), chains - {key}, shift - {key}, k) {
      assert ChainOk(h, chains, shift, k);
      DeadRecords(h, key, k);
    }
    if ChainsLive(h, chains) {
      forall k | k in chains - {key} ensures |LiveRecords(Dead(h, key), k)| > 0 {
        DeadRecords(h, key, k);
      }
    }
  }

  /** The leads after a compaction has emptied the table: every chain goes on where it was. */
  function Leads(h: seq<Record>, chains: Chains, shift: map<Bytes, nat>): map<Bytes, nat> {
    map k | k in chains :: Lead(shift, k) + |LiveRecords(h, k)|
  }

  lemma ChainsRestart(h: seq<Record>, chains: Chains, shift: map<Bytes, nat>)
    requires ChainsOk(h, chains, shift)
    ensures ChainsOk([], chains, Leads(h, chains, shift))
  {
    hide IdsEndAt;
    forall k ensures ChainOk([], chains, Leads(h, chains, shift), k) {
      assert ChainOk(h, chains, shift, k);
      assert LiveRecords([], k) == [];
    }
  }

  // ---------- the books ----------

  lemma ShiftJoin(before: map<u128, ContentEntry>, mid: map<u128, ContentEntry>, after: map<u128, ContentEntry>,
                  first: multiset<u128>, second: multiset<u128>)
    requires Shifted(before, mid, first) && Shifted(mid, after, second)
    ensures Shifted(before, after, first + second)
  {
    hide Wrap32;
    forall x | x in after
      ensures after[x].refcount == Wrap32(Count(before, x) as int + (first + second)[x])
    {
      if x in mid {
        WrapAdd(Count(before, x) as int + first[x], second[x]);
      }
    }
  }

  lemma BalanceShift(before: map<u128, ContentEntry>, after: map<u128, ContentEntry>, uses: multiset<u128>,
                     delta: multiset<u128>, leaked: multiset<u128>, missed: multiset<u128>)
    requires Balanced(before, uses, leaked, missed) && Shifted(before, after, delta)
    ensures Balanced(after, uses + delta, leaked, missed)
  {
    hide Wrap32;
    forall h | h in after
      ensures after[h].refcount == Wrap32(Net(uses + delta, leaked, missed, h))
    {
      if h in before {
        WrapAdd(Net(uses, leaked, missed, h), delta[h]);
      }
    }
  }

  lemma BalanceRelease(entries: map<u128, ContentEntry>, uses: multiset<u128>, h: u128,
                       leaked: multiset<u128>, missed: multiset<u128>)
    requires Balanced(entries, uses + multiset{h}, leaked, missed)
    ensures h in entries ==>
              Balanced(entries[h := entries[h].(refcount := Wrap32(Count(entries, h) as int - 1))], uses, leaked, missed)
    ensures h !in entries ==> Balanced(entries, uses, leaked + multiset{h}, missed)
    ensures h !in entries ==> missed != multiset{}
  {
    hide Wrap32;
    if h in entries {
      WrapAdd(Net(uses + multiset{h}, leaked, missed, h), -1);
    } else {
      assert Net(uses + multiset{h}, leaked, missed, h) == 0;
      assert h in missed;
    }
  }
}

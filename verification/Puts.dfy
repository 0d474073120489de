// What a sequence of puts does to version chains, radix trees and the books, whichever method
// performs it (crates/tpx-shard/src/engine.rs, `put_with_retention`, `put_batch`, `compact`).

module Puts {
  import opened Wrappers
  import opened Types
  import opened AttrsFormat
  import opened TocFormat
  import opened TocIndex
  import opened ChunkIo
  import opened History
  import opened ContentStoreModel
  import opened VersionChainModel
  import opened Ledger
  import opened EngineBatch
  import opened EngineState
  import opened Recovery
  import opened ShardTrees
  import Art
  import ArtRuns
  import ArtShape
  import FooterFormat
  import Cdc

  /** One put as the engine records it; a put of a batch leaves the policy of its chain alone. */
  datatype PutItem = PutItem(key: Bytes, tensor: Tensor, attrs: AttrMap, policy: Option<RetentionPolicy>)

  function BatchPut(it: BatchItem): PutItem {
    PutItem(it.key, Tensor(it.dtype, it.shape, it.data), map[], None)
  }

  function BatchPuts(items: seq<BatchItem>): (ps: seq<PutItem>)
    ensures |ps| == |items|
  {
    seq(|items|, i requires 0 <= i < |items| => BatchPut(items[i]))
  }

  /** What a compaction puts: each live item, keeping the latest version. */
  function Rewrites(items: seq<LiveItem>): (ps: seq<PutItem>)
    ensures |ps| == |items|
  {
    seq(|items|, i requires 0 <= i < |items| => PutItem(items[i].key, items[i].tensor, items[i].attrs, Some(KeepLatest)))
  }

  function PutHashes(env: Env, p: PutItem): (hs: seq<u128>) {
    SegmentHashes(env, p.tensor.data)
  }

  // ---------- chains ----------

  function ChainAfter(chains: Chains, env: Env, p: PutItem): Chains {
    chains[p.key := Chained(chains, p.key, p.policy, p.tensor.dtype, p.tensor.shape, p.attrs, PutHashes(env, p))]
  }

  function ChainsAfter(chains: Chains, env: Env, ps: seq<PutItem>): Chains {
    if |ps| == 0 then chains else ChainAfter(ChainsAfter(chains, env, ps[..|ps| - 1]), env, ps[|ps| - 1])
  }

  lemma ChainsAfterStep(chains: Chains, env: Env, ps: seq<PutItem>, i: nat)
    requires i < |ps|
    ensures ChainsAfter(chains, env, ps[..i + 1]) == ChainAfter(ChainsAfter(chains, env, ps[..i]), env, ps[i])
  {
    assert ps[..i + 1][..i] == ps[..i];
  }

  /** The put's version is the newest, the policy decides how many stay, and the others' hashes are evicted. */
  lemma PutKeepsLast(chains: Chains, env: Env, p: PutItem)
    ensures var before := if p.key in chains then chains[p.key].versions else [];
            var policy := if p.policy.Some? then p.policy.value else if p.key in chains then chains[p.key].retention else KeepLatest;
            var newest := VersionEntry(NextId(before), p.tensor.dtype, p.tensor.shape, p.attrs, PutHashes(env, p));
            var after := ChainAfter(chains, env, p)[p.key];
            after.retention == policy && KeepsLast(before + [newest], policy, after.versions, PutEvicts(chains, env, p))
  {
    hide Retained, Evicted, KeepsLast, PutHashes;
    var c := Pushing(chains, p.key, p.policy);
    RetainedKeepsLast(Pushed(c, p.tensor.dtype, p.tensor.shape, p.attrs, PutHashes(env, p)));
    RetainedPolicy(Pushed(c, p.tensor.dtype, p.tensor.shape, p.attrs, PutHashes(env, p)));
  }

  lemma RetainedPolicy(c: VersionChain)
    ensures Retained(c).retention == c.retention
  {
  }

  /** The policies after a batch: each chain keeps its own, and a new one keeps the latest version only. */
  ghost predicate PoliciesKept(before: Chains, items: seq<BatchItem>, after: Chains) {
    && (forall k :: k in after ==> after[k].retention == if k in before then before[k].retention else KeepLatest)
    && (forall k :: k in before ==> k in after)
    && (forall i :: 0 <= i < |items| ==> items[i].key in after)
  }

  lemma PolicyStep(before: Chains, items: seq<BatchItem>, mid: Chains, env: Env, it: BatchItem)
    requires PoliciesKept(before, items, mid)
    requires forall k :: k in mid ==> k in before || InBatch(items, k)
    ensures PoliciesKept(before, items + [it], ChainAfter(mid, env, BatchPut(it)))
    ensures forall k :: k in ChainAfter(mid, env, BatchPut(it)) ==> k in before || InBatch(items + [it], k)
  {
    hide Retained, PutHashes, KeepsLast;
    PutKeepsLast(mid, env, BatchPut(it));
    var after := ChainAfter(mid, env, BatchPut(it));
    forall k | k in after ensures k in before || InBatch(items + [it], k) {
      if k == it.key {
        assert (items + [it])[|items|].key == k;
      } else if k !in before {
        var i :| 0 <= i < |items| && items[i].key == k;
        assert (items + [it])[i].key == k;
      }
    }
  }

  ghost predicate InBatch(items: seq<BatchItem>, k: Bytes) {
    exists i :: 0 <= i < |items| && items[i].key == k
  }

  lemma {:induction false} BatchKeepsPolicies(chains: Chains, env: Env, items: seq<BatchItem>)
    ensures PoliciesKept(chains, items, ChainsAfter(chains, env, BatchPuts(items)))
    ensures forall k :: k in ChainsAfter(chains, env, BatchPuts(items)) ==> k in chains || InBatch(items, k)
    decreases |items|
  {
    if |items| > 0 {
      hide PoliciesKept, InBatch, ChainAfter;
      var n := |items| - 1;
      assert BatchPuts(items)[..n] == BatchPuts(items[..n]);
      assert items == items[..n] + [items[n]];
      BatchKeepsPolicies(chains, env, items[..n]);
      PolicyStep(chains, items[..n], ChainsAfter(chains, env, BatchPuts(items[..n])), env, items[n]);
    }
  }

  /** After a compaction each rewritten key keeps the latest version only: the last item of the key, under any id. */
  lemma {:induction false} RewriteKeepsLatest(chains: Chains, env: Env, items: seq<LiveItem>, i: nat)
    requires i < |items| && forall j :: i < j < |items| ==> items[j].key != items[i].key
    ensures var after := ChainsAfter(chains, env, Rewrites(items));
            && items[i].key in after
            && var c := after[items[i].key];
            && c.retention == KeepLatest && |c.versions| == 1
            && var v := c.versions[0];
               v.dtype == items[i].tensor.dtype && v.shape == items[i].tensor.shape && v.attrs == items[i].attrs
               && v.chunkHashes == SegmentHashes(env, items[i].tensor.data)
    decreases |items|
  {
    hide Retained, KeepsLast, SegmentHashes;
    var n := |items| - 1;
    assert Rewrites(items)[..n] == Rewrites(items[..n]);
    var before := ChainsAfter(chains, env, Rewrites(items[..n]));
    if i < n {
      RewriteKeepsLatest(chains, env, items[..n], i);
    } else {
      var p := Rewrites(items)[n];
      PutKeepsLast(before, env, p);
      LatestIs(if p.key in before then before[p.key].versions else [],
               VersionEntry(NextId(if p.key in before then before[p.key].versions else []), p.tensor.dtype, p.tensor.shape, p.attrs, PutHashes(env, p)),
               ChainAfter(before, env, p)[p.key].versions, PutEvicts(before, env, p));
    }
  }

  lemma LatestIs(before: seq<VersionEntry>, newest: VersionEntry, kept: seq<VersionEntry>, evicted: seq<u128>)
    requires KeepsLast(before + [newest], KeepLatest, kept, evicted)
    ensures kept == [newest]
  {
  }

  /** The hashes that one put evicts. */
  function PutEvicts(chains: Chains, env: Env, p: PutItem): seq<u128> {
    Evicting(chains, p.key, p.policy, p.tensor.dtype, p.tensor.shape, p.attrs, PutHashes(env, p))
  }

  function EvictedBy(chains: Chains, env: Env, ps: seq<PutItem>): seq<u128> {
    if |ps| == 0 then []
    else EvictedBy(chains, env, ps[..|ps| - 1]) + PutEvicts(ChainsAfter(chains, env, ps[..|ps| - 1]), env, ps[|ps| - 1])
  }

  lemma EvictedByStep(chains: Chains, env: Env, ps: seq<PutItem>, i: nat)
    requires i < |ps|
    ensures EvictedBy(chains, env, ps[..i + 1])
            == EvictedBy(chains, env, ps[..i]) + PutEvicts(ChainsAfter(chains, env, ps[..i]), env, ps[i])
  {
    assert ps[..i + 1][..i] == ps[..i];
  }

  /** The releases that find no counter. */
  function LeakOf(evicted: seq<u128>, filed: set<u128>): multiset<u128> {
    if |evicted| == 0 then multiset{}
    else LeakOf(evicted[..|evicted| - 1], filed) + if evicted[|evicted| - 1] in filed then multiset{} else multiset{evicted[|evicted| - 1]}
  }

  lemma {:induction false} LeakJoin(a: seq<u128>, b: seq<u128>, filed: set<u128>)
    ensures LeakOf(a + b, filed) == LeakOf(a, filed) + LeakOf(b, filed)
  {
    if |b| == 0 {
      assert a + b == a;
    } else {
      LeakJoin(a, b[..|b| - 1], filed);
      assert (a + b)[..|a + b| - 1] == a + b[..|b| - 1];
    }
  }

  lemma LeakNone(evicted: seq<u128>, filed: set<u128>)
    ensures LeakOf(evicted[..0], filed) == multiset{}
  {
  }

  lemma LeakStep(evicted: seq<u128>, i: nat, filed: set<u128>)
    requires i < |evicted|
    ensures LeakOf(evicted[..i + 1], filed)
            == LeakOf(evicted[..i], filed) + if evicted[i] in filed then multiset{} else multiset{evicted[i]}
  {
    assert evicted[..i + 1][..i] == evicted[..i];
  }

  /** Counted hash by hash: everything evicted that is not filed. */
  lemma {:induction false} LeakCount(evicted: seq<u128>, filed: set<u128>, h: u128)
    ensures LeakOf(evicted, filed)[h] == if h in filed then 0 else multiset(evicted)[h]
  {
    if |evicted| > 0 {
      var n := |evicted| - 1;
      LeakCount(evicted[..n], filed, h);
      assert evicted == evicted[..n] + [evicted[n]];
    }
  }

  /** Every use of a segment hash by the puts. */
  function HashesIn(env: Env, ps: seq<PutItem>): multiset<u128> {
    if |ps| == 0 then multiset{} else multiset(PutHashes(env, ps[0])) + HashesIn(env, ps[1..])
  }

  // ---------- trees ----------

  /** A put inserts its key once; data without segments leaves the trees alone. */
  function KeyTouches(env: Env, count: u16, key: Bytes, data: Bytes): seq<Touch> {
    PutTouches(env, count, key, if data == [] then 0 else 1)
  }

  function TouchesOf(env: Env, count: u16, ps: seq<PutItem>): seq<Touch> {
    if |ps| == 0 then []
    else TouchesOf(env, count, ps[..|ps| - 1]) + KeyTouches(env, count, ps[|ps| - 1].key, ps[|ps| - 1].tensor.data)
  }

  lemma {:induction false} PutsRouted(env: Env, count: u16, ps: seq<PutItem>)
    requires count >= 1
    ensures Routed(count, TouchesOf(env, count, ps))
    ensures forall i :: 0 <= i < |TouchesOf(env, count, ps)| ==> TouchesOf(env, count, ps)[i].op.Put?
  {
    if |ps| > 0 {
      PutsRouted(env, count, ps[..|ps| - 1]);
    }
  }

  lemma KeyRouted(env: Env, count: u16, key: Bytes, data: Bytes)
    requires count >= 1
    ensures Routed(count, KeyTouches(env, count, key, data))
  {
  }

  lemma OneTouch(shapes: Shapes, env: Env, count: u16, key: Bytes, data: Bytes)
    requires count >= 1 && |shapes| == count && AllSized(shapes)
    ensures Routed(count, KeyTouches(env, count, key, data))
    ensures var s := env.keyHash(key) % count;
            Touched(shapes, KeyTouches(env, count, key, data))
            == if data == [] then Some(shapes)
               else
                 var step := ArtRuns.Step(shapes[s], ArtRuns.Put(key, ()));
                 if step.Stopped? then None else Some(shapes[s := step.tree])
  {
    hide ArtRuns.Step;
    var t := Touch(ShardForKey(env, key, count), ArtRuns.Put(key, ()));
    if data == [] {
      assert KeyTouches(env, count, key, data) == [];
    } else {
      assert KeyTouches(env, count, key, data) == [t];
      TouchOne(shapes, t);
    }
  }

  /** Exactly when a put stops: its data has a segment and the insert into the key's tree runs into an empty slot. */
  lemma PutStops(trees: seq<ArtRuns.Tree<ChunkRef>>, env: Env, count: u16, key: Bytes, data: Bytes, ref: ChunkRef)
    requires count >= 1 && |trees| == count && AllSized(trees)
    ensures AllSized(ShapesOf(trees)) && Routed(count, KeyTouches(env, count, key, data))
    ensures Touched(ShapesOf(trees), KeyTouches(env, count, key, data)).None?
            <==> data != [] && ArtRuns.TreeInsert(trees[env.keyHash(key) % count], key, ref).Panic?
  {
    hide AllSized, ShapesOf, ArtShape.ShapeOf, Art.Insert, ArtRuns.TreeSized;
    ShapesSized(trees);
    OneTouch(ShapesOf(trees), env, count, key, data);
    var s := ShardForKey(env, key, count);
    assert ArtRuns.TreeSized(trees[s]) && ShapesOf(trees)[s] == ArtShape.ShapeOf(trees[s]) by { ShapeAt(trees, s); }
    ArtShape.ShapeStep(trees[s], ArtRuns.Put(key, ref));
  }

  lemma ShapeAt(trees: seq<ArtRuns.Tree<ChunkRef>>, s: nat)
    requires AllSized(trees) && s < |trees|
    ensures ArtRuns.TreeSized(trees[s]) && ShapesOf(trees)[s] == ArtShape.ShapeOf(trees[s])
  {
  }

  lemma TouchesOfStep(shapes: Shapes, env: Env, count: u16, ps: seq<PutItem>, i: nat)
    requires count >= 1 && |shapes| == count && AllSized(shapes) && i < |ps|
    ensures Routed(count, TouchesOf(env, count, ps[..i])) && Routed(count, TouchesOf(env, count, ps[..i + 1]))
    ensures Routed(count, KeyTouches(env, count, ps[i].key, ps[i].tensor.data))
    ensures var before := Touched(shapes, TouchesOf(env, count, ps[..i]));
            Touched(shapes, TouchesOf(env, count, ps[..i + 1]))
            == if before.None? then None else Touched(before.value, KeyTouches(env, count, ps[i].key, ps[i].tensor.data))
  {
    hide Touched, AllSized;
    assert ps[..i + 1][..i] == ps[..i];
    PutsRouted(env, count, ps[..i]);
    PutsRouted(env, count, ps[..i + 1]);
    TouchedAppend(shapes, TouchesOf(env, count, ps[..i]), KeyTouches(env, count, ps[i].key, ps[i].tensor.data));
  }

  /** A put that stops ends the whole sequence. */
  lemma {:induction false} PutsStopped(shapes: Shapes, env: Env, count: u16, ps: seq<PutItem>, i: nat)
    requires count >= 1 && |shapes| == count && AllSized(shapes) && i <= |ps|
    requires Routed(count, TouchesOf(env, count, ps[..i])) && Touched(shapes, TouchesOf(env, count, ps[..i])).None?
    ensures Routed(count, TouchesOf(env, count, ps)) && Touched(shapes, TouchesOf(env, count, ps)).None?
    decreases |ps| - i
  {
    hide Touched, AllSized;
    if i == |ps| {
      assert ps[..i] == ps;
    } else {
      TouchesOfStep(shapes, env, count, ps, i);
      PutsStopped(shapes, env, count, ps, i + 1);
    }
  }

  // ---------- stored segments ----------

  lemma HashesAre(env: Env, data: Bytes)
    ensures var segs := Cdc.SegmentsFrom(data, 0, Cdc.DEFAULT_CONFIG, env.contentHash);
            forall i :: 0 <= i < |segs| ==> SegmentHashes(env, data)[i] == segs[i].contentHash
  {
    hide Cdc.SegmentsFrom;
  }

  /** Only empty data has no segments. */
  lemma NoSegments(env: Env, data: Bytes)
    ensures SegmentHashes(env, data) == [] <==> data == []
  {
    hide Cdc.CutPoint;
  }

  /** A first segment that was not filed before is written and filed at the end of the log. */
  ghost predicate FirstAt(hashes: seq<u128>, before: map<u128, ContentEntry>, after: map<u128, ContentEntry>, end: nat) {
    hashes != [] && hashes[0] !in before ==> hashes[0] in after && after[hashes[0]].chunkOffset == end
  }

  lemma FirstKept(hashes: seq<u128>, before: map<u128, ContentEntry>, mid: map<u128, ContentEntry>, after: map<u128, ContentEntry>,
                  end: nat)
    requires FirstAt(hashes, before, mid, end) && Filed(mid, after, {})
    ensures FirstAt(hashes, before, after, end)
  {
  }

  lemma FirstSnoc(used: seq<u128>, hash: u128, before: map<u128, ContentEntry>, mid: map<u128, ContentEntry>,
                  after: map<u128, ContentEntry>, end: nat)
    requires FirstAt(used, before, mid, end) && Filed(mid, after, {hash})
    requires used == [] ==> mid == before && (hash !in mid ==> after[hash].chunkOffset == end)
    ensures FirstAt(used + [hash], before, after, end)
  {
    var hashes := used + [hash];
    assert used != [] ==> hashes[0] == used[0];
    if used == [] && hash !in before {
      assert hash in after.Keys;
    }
  }

  /**
   * The references are those filed under the hashes, and what is filed besides the entries before belongs
   * to one shard and lies between two places of the file.
   */
  ghost predicate Recorded(hashes: seq<u128>, refs: seq<ChunkRef>, before: map<u128, ContentEntry>, after: map<u128, ContentEntry>,
                           shard: nat, lo: nat, hi: nat) {
    && AllFiled(hashes, after) && refs == FiledRefs(hashes, after)
    && forall h :: h in after && h !in before ==>
                     after[h].shardId == shard && lo <= after[h].chunkOffset && after[h].chunkOffset + after[h].chunkLen <= hi
  }

  lemma RecordedStep(used: seq<u128>, refs: seq<ChunkRef>, first: map<u128, ContentEntry>, mid: map<u128, ContentEntry>,
                     after: map<u128, ContentEntry>, shard: nat, lo: nat, hi: nat, higher: nat, hash: u128, r: ChunkRef)
    requires Recorded(used, refs, first, mid, shard, lo, hi) && Filed(mid, after, {hash}) && lo <= hi <= higher
    requires hash in after && r == RefOf(after[hash])
    requires hash !in mid ==> r.shardId == shard && r.chunkOffset == hi && hi + r.chunkLen <= higher
    ensures Recorded(used + [hash], refs + [r], first, after, shard, lo, higher)
  {
    var hashes := used + [hash];
    assert hashes[|used|] == hash && forall i :: 0 <= i < |used| ==> hashes[i] == used[i];
    assert AllFiled(hashes, after);
    assert FiledRefs(hashes, after) == FiledRefs(used, mid) + [r];
    forall h | h in after && h !in first
      ensures after[h].shardId == shard && lo <= after[h].chunkOffset && after[h].chunkOffset + after[h].chunkLen <= higher
    {
      assert h in after.Keys;
      if h in mid {
        assert RefOf(after[h]) == RefOf(mid[h]);
      }
    }
  }

  lemma RecordedKept(hashes: seq<u128>, refs: seq<ChunkRef>, first: map<u128, ContentEntry>, mid: map<u128, ContentEntry>,
                     after: map<u128, ContentEntry>, shard: nat, lo: nat, hi: nat)
    requires Recorded(hashes, refs, first, mid, shard, lo, hi) && Filed(mid, after, {})
    ensures Recorded(hashes, refs, first, after, shard, lo, hi)
  {
    assert FiledRefs(hashes, after) == FiledRefs(hashes, mid);
    forall h | h in after && h !in first
      ensures after[h].shardId == shard && lo <= after[h].chunkOffset && after[h].chunkOffset + after[h].chunkLen <= hi
    {
      assert h in after.Keys;
      assert RefOf(after[h]) == RefOf(mid[h]);
    }
  }

  /** What storing the segments of `part` has come to: references, uses, filed hashes and bytes written. */
  ghost predicate Stored(env: Env, first: map<u128, ContentEntry>, now: map<u128, ContentEntry>, stale: set<u128>,
                         log: Bytes, longer: Bytes, part: Bytes, hashes: seq<u128>, refs: seq<ChunkRef>, shard: nat) {
    && log <= longer && Recorded(hashes, refs, first, now, shard, |log|, |longer|) && |refs| == |hashes|
    && (Fresh(hashes, stale) ==> HoldsAll(env, longer, refs, part))
    && Shifted(first, now, multiset(hashes))
    && Filed(first, now, HashSet(hashes)) && FirstAt(hashes, first, now, |log|)
    && (hashes == [] ==> longer == log && now == first)
    && (AllFiled(hashes, first) ==> refs == FiledRefs(hashes, first) && longer == log)
  }

  lemma StoredNone(env: Env, first: map<u128, ContentEntry>, stale: set<u128>, log: Bytes, shard: nat)
    ensures Stored(env, first, first, stale, log, log, [], [], [], shard)
  {
    ShiftNone(first);
  }

  lemma StoredAll(env: Env, first: map<u128, ContentEntry>, now: map<u128, ContentEntry>, stale: set<u128>,
                  log: Bytes, longer: Bytes, part: Bytes, hashes: seq<u128>, refs: seq<ChunkRef>, shard: nat)
    requires Stored(env, first, now, stale, log, longer, part, hashes, refs, shard)
    ensures log <= longer && |refs| == |hashes| && Recorded(hashes, refs, first, now, shard, |log|, |longer|)
    ensures Fresh(hashes, stale) ==> HoldsAll(env, longer, refs, part)
    ensures Shifted(first, now, multiset(hashes)) && Filed(first, now, HashSet(hashes)) && FirstAt(hashes, first, now, |log|)
    ensures AllFiled(hashes, first) ==> refs == FiledRefs(hashes, first) && longer == log
  {
  }

  lemma ShiftNone(entries: map<u128, ContentEntry>)
    ensures Shifted(entries, entries, multiset([]))
  {
  }

  /** One segment more of some data is stored. */
  lemma StoredStep(env: Env, first: map<u128, ContentEntry>, mid: map<u128, ContentEntry>, after: map<u128, ContentEntry>,
                   stale: set<u128>, log: Bytes, longer: Bytes, longest: Bytes, part: Bytes, segment: Bytes,
                   used: seq<u128>, front: seq<ChunkRef>, hash: u128, r: ChunkRef, shard: nat)
    requires Stored(env, first, mid, stale, log, longer, part, used, front, shard) && longer <= longest
    requires Shifted(mid, after, multiset{hash}) && Filed(mid, after, {hash})
    requires hash !in stale ==> Holds(env, longest, r, segment)
    requires hash in mid ==> r == RefOf(mid[hash]) && longest == longer
    requires hash !in mid ==> hash in after && after[hash].chunkOffset == |longer|
    requires hash in after && r == RefOf(after[hash])
    requires hash !in mid ==> r.shardId == shard && r.chunkOffset == |longer| && |longer| + r.chunkLen <= |longest|
    ensures Stored(env, first, after, stale, log, longest, part + segment, used + [hash], front + [r], shard)
  {
    hide Shifted, HoldsAll, Holds, Fresh, AllFiled, FiledRefs, Filed, FirstAt, Recorded;
    RecordedStep(used, front, first, mid, after, shard, |log|, |longer|, |longest|, hash, r);
    FirstSnoc(used, hash, first, mid, after, |log|);
    assert multiset(used + [hash]) == multiset(used) + multiset{hash};
    ShiftJoin(first, mid, after, multiset(used), multiset{hash});
    FiledJoin(first, mid, after, HashSet(used), {hash});
    assert HashSet(used) + {hash} == HashSet(used + [hash]);
    FreshSnoc(used, hash, stale);
    FiledSnoc(first, mid, used, hash);
    if Fresh(used, stale) && hash !in stale {
      HoldsAllGrows(env, longer, longest, front, part);
      HoldsAllSnoc(env, longest, front, r, part, segment);
    }
  }

  lemma FreshSnoc(used: seq<u128>, hash: u128, stale: set<u128>)
    ensures Fresh(used + [hash], stale) <==> Fresh(used, stale) && hash !in stale
  {
    var hashes := used + [hash];
    assert hashes[|used|] == hash && forall i :: 0 <= i < |used| ==> hashes[i] == used[i];
    if Fresh(hashes, stale) {
      forall i | 0 <= i < |used| ensures used[i] !in stale {
        assert hashes[i] !in stale;
      }
    }
  }

  lemma FiledSnoc(first: map<u128, ContentEntry>, mid: map<u128, ContentEntry>, used: seq<u128>, hash: u128)
    requires Filed(first, mid, HashSet(used))
    ensures AllFiled(used + [hash], first) ==>
              && AllFiled(used, first) && hash in mid
              && FiledRefs(used + [hash], first) == FiledRefs(used, first) + [RefOf(mid[hash])]
  {
    var hashes := used + [hash];
    assert hashes[|used|] == hash && forall i :: 0 <= i < |used| ==> hashes[i] == used[i];
    if AllFiled(hashes, first) {
      forall i | 0 <= i < |used| ensures used[i] in first {
        assert hashes[i] in first;
      }
    }
  }

  // ---------- what a put leaves in the file ----------

  /** A checkpoint is due after 64 MiB, or after a minute in which anything was written. */
  predicate Due(written: nat, elapsed: nat) {
    written >= 67_108_864 || (elapsed >= 60_000 && written > 0)
  }

  /**
   * The end of a put: if a checkpoint is due, the table is committed behind the stored chunks, everything is
   * on disk and the count of written bytes starts again; otherwise neither file nor disk nor count changes.
   */
  ghost predicate CheckpointRule(env: Env, es: seq<TocEntry>, chunkCount: nat, written: nat, elapsed: nat,
                                 stored: Bytes, disk: Bytes, file: Bytes, disk': Bytes, written': nat) {
    if Due(written, elapsed) then
      && file == stored + Block(EncodeToc(es), CheckpointFooter(env, es, chunkCount, |stored|)) && disk' == file && written' == 0
    else
      file == stored && disk' == disk && written' == written
  }

  lemma RuleHeld(env: Env, es: seq<TocEntry>, chunkCount: nat, written: nat, elapsed: nat,
                 stored: Bytes, disk: Bytes, file: Bytes, disk': Bytes, written': nat)
    requires CheckpointRule(env, es, chunkCount, written, elapsed, stored, disk, file, disk', written')
    ensures !Due(written, elapsed) ==> file == stored && written' == written
    ensures Tabled(stored, file, es)
  {
    hide Block, EncodeToc;
  }

  /** Where the table starts, how many chunks there are, both cut to their widths, the checksum and "1XPC". */
  function CheckpointFooter(env: Env, es: seq<TocEntry>, chunkCount: nat, tocOffset: nat): FooterFormat.Footer {
    FooterFormat.Footer(tocOffset % 0x1_0000_0000_0000_0000, chunkCount % 0x1_0000_0000, env.tocChecksum(EncodeToc(es), tocOffset),
                        [0x31, 0x58, 0x50, 0x43])
  }

  /** What a put or a batch leaves: the stored chunks right behind the file, and the checkpoint if one is due. */
  ghost predicate Written(env: Env, es: seq<TocEntry>, chunkCount: nat, written: nat, elapsed: nat, log: Bytes, disk: Bytes,
                          file: Bytes, disk': Bytes, written': nat, stored: Bytes) {
    && log <= stored
    && CheckpointRule(env, es, chunkCount, written + (|stored| - |log|), elapsed, stored, disk, file, disk', written')
  }

  lemma NoChunks(env: Env, items: seq<BatchItem>)
    ensures ChunksIn(env, BatchPuts(items)[..0]) == 0
  {
  }

  lemma BatchChunks(env: Env, items: seq<BatchItem>, i: nat)
    requires i < |items|
    ensures ChunksIn(env, BatchPuts(items)[..i + 1]) == ChunksIn(env, BatchPuts(items)[..i]) + |SegmentHashes(env, items[i].data)|
  {
    ChunksInStep(env, BatchPuts(items), i);
  }

  /** What a put leaves: its entry, the last one, refers to its segments, and file and disk are as written. */
  ghost predicate PutWritten(env: Env, hashes: seq<u128>, before: map<u128, ContentEntry>, after: map<u128, ContentEntry>, shard: nat,
                             es: seq<TocEntry>, chunkCount: nat, written: nat, elapsed: nat, log: Bytes, disk: Bytes,
                             file: Bytes, disk': Bytes, written': nat)
    requires es != []
  {
    exists stored ::
      && Recorded(hashes, es[|es| - 1].chunkRefs, before, after, shard, |log|, |stored|)
      && Written(env, es, chunkCount, written, elapsed, log, disk, file, disk', written', stored)
  }

  /** What a batch leaves in file and on disk. */
  ghost predicate BatchWritten(env: Env, es: seq<TocEntry>, chunkCount: nat, written: nat, elapsed: nat, log: Bytes, disk: Bytes,
                               file: Bytes, disk': Bytes, written': nat) {
    exists stored :: Written(env, es, chunkCount, written, elapsed, log, disk, file, disk', written', stored)
  }

  lemma IsWritten(env: Env, es: seq<TocEntry>, chunkCount: nat, written: nat, elapsed: nat, log: Bytes, disk: Bytes,
                  file: Bytes, disk': Bytes, written': nat, stored: Bytes)
    requires log <= stored
    requires CheckpointRule(env, es, chunkCount, written + (|stored| - |log|), elapsed, stored, disk, file, disk', written')
    ensures Written(env, es, chunkCount, written, elapsed, log, disk, file, disk', written', stored)
  {
    hide CheckpointRule;
  }

  lemma PutIsWritten(env: Env, hashes: seq<u128>, before: map<u128, ContentEntry>, after: map<u128, ContentEntry>, shard: nat,
                     es: seq<TocEntry>, chunkCount: nat, written: nat, elapsed: nat, log: Bytes, disk: Bytes,
                     file: Bytes, disk': Bytes, written': nat, stored: Bytes)
    requires es != [] && log <= stored && Recorded(hashes, es[|es| - 1].chunkRefs, before, after, shard, |log|, |stored|)
    requires CheckpointRule(env, es, chunkCount, written + (|stored| - |log|), elapsed, stored, disk, file, disk', written')
    ensures PutWritten(env, hashes, before, after, shard, es, chunkCount, written, elapsed, log, disk, file, disk', written')
  {
    hide Recorded, CheckpointRule, Written;
    IsWritten(env, es, chunkCount, written, elapsed, log, disk, file, disk', written', stored);
  }

  /** The chunks that a run of puts refers to, repeated ones counted again. */
  function ChunksIn(env: Env, ps: seq<PutItem>): nat {
    if |ps| == 0 then 0 else ChunksIn(env, ps[..|ps| - 1]) + |PutHashes(env, ps[|ps| - 1])|
  }

  lemma ChunksInStep(env: Env, ps: seq<PutItem>, i: nat)
    requires i < |ps|
    ensures ChunksIn(env, ps[..i + 1]) == ChunksIn(env, ps[..i]) + |PutHashes(env, ps[i])|
  {
    assert ps[..i + 1][..i] == ps[..i];
  }

  // ---------- table entries ----------

  lemma EntryReads(env: Env, log: Bytes, e: TocEntry, data: Bytes)
    requires HoldsAll(env, log, e.chunkRefs, data)
    ensures ReadTensor(env, log, e) == Success(Tensor(e.dtype, e.shape, data))
  {
    hide ReadChunks;
  }

  /** The table grew by one live entry of `n` chunks. */
  ghost predicate NewEntry(env: Env, before: seq<TocEntry>, after: seq<TocEntry>, p: PutItem, n: nat) {
    && |after| == |before| + 1 && after[..|before|] == before
    && var e := after[|before|];
       && |e.chunkRefs| == n
       && e == TocEntry(env.keyHash(p.key), p.key, p.tensor.dtype, p.tensor.shape, p.attrs, e.chunkRefs, 0)
  }

  lemma EntryAdded(env: Env, before: seq<TocEntry>, p: PutItem, refs: seq<ChunkRef>)
    ensures var e := TocEntry(env.keyHash(p.key), p.key, p.tensor.dtype, p.tensor.shape, p.attrs, refs, 0);
            NewEntry(env, before, before + [e], p, |refs|) && (before + [e])[|before + [e]| - 1].chunkRefs == refs
  {
  }

  /** Nothing was written, or one checkpoint of the table. */
  ghost predicate Tabled(before: Bytes, after: Bytes, es: seq<TocEntry>) {
    after == before || exists f: FooterFormat.Footer :: after == before + Block(EncodeToc(es), f)
  }

  lemma TabledSame(log: Bytes, es: seq<TocEntry>)
    ensures Tabled(log, log, es)
  {
  }

  lemma TabledOnce(log: Bytes, es: seq<TocEntry>, f: FooterFormat.Footer)
    ensures Tabled(log, log + Block(EncodeToc(es), f), es)
  {
    hide Block, EncodeToc;
  }

  /** What a lookup in the table reads. */
  function Looked(env: Env, log: Bytes, es: seq<TocEntry>, key: Bytes): Result<Option<Tensor>, TpxError> {
    var e := LookupIn(es, IndexOf(es), env.keyHash(key), key);
    if e.None? then Success(None) else MapSome(ReadTensor(env, log, e.value))
  }

  /** The version-th entry of the key, dead ones included, if the key is there at all. */
  function VersionRead(env: Env, log: Bytes, es: seq<TocEntry>, key: Bytes, version: nat): Result<Option<Tensor>, TpxError> {
    if LookupIn(es, IndexOf(es), env.keyHash(key), key).None? then Failure(KeyNotFound)
    else if version >= |EntriesOf(es, key)| then Failure(VersionNotFound(version))
    else MapSome(ReadTensor(env, log, EntriesOf(es, key)[version]))
  }

  // ---------- compaction ----------

  /** No segment of the items is filed. */
  predicate NoneFiled(env: Env, items: seq<LiveItem>, entries: map<u128, ContentEntry>) {
    forall i :: 0 <= i < |items| ==> Fresh(SegmentHashes(env, items[i].tensor.data), entries.Keys)
  }

  /** Every segment of the items is filed. */
  ghost predicate EachFiled(env: Env, items: seq<LiveItem>, entries: map<u128, ContentEntry>) {
    forall i :: 0 <= i < |items| ==> AllFiled(SegmentHashes(env, items[i].tensor.data), entries)
  }

  function RefiledEntry(env: Env, it: LiveItem, entries: map<u128, ContentEntry>): TocEntry
    requires AllFiled(SegmentHashes(env, it.tensor.data), entries)
  {
    TocEntry(env.keyHash(it.key), it.key, it.tensor.dtype, it.tensor.shape, it.attrs,
             FiledRefs(SegmentHashes(env, it.tensor.data), entries), 0)
  }

  /** The table lists the items under the references filed in `entries`. */
  ghost predicate Refiled(env: Env, items: seq<LiveItem>, entries: map<u128, ContentEntry>, es: seq<TocEntry>) {
    && |es| == |items|
    && forall i :: 0 <= i < |items| ==>
                     AllFiled(SegmentHashes(env, items[i].tensor.data), entries)
                     && es[i] == RefiledEntry(env, items[i], entries)
  }

  lemma RefiledStep(env: Env, items: seq<LiveItem>, i: nat, first: map<u128, ContentEntry>, now: map<u128, ContentEntry>,
                    es: seq<TocEntry>, after: seq<TocEntry>)
    requires i < |items| && Refiled(env, items[..i], first, es) && RefsKept(first, now)
    requires var hs := SegmentHashes(env, items[i].tensor.data);
             AllFiled(hs, first) && NewEntry(env, es, after, Rewrites(items)[i], |hs|)
             && (AllFiled(hs, now) ==> after[|after| - 1].chunkRefs == FiledRefs(hs, now))
    ensures Refiled(env, items[..i + 1], first, after)
  {
    hide SegmentHashes;
    var hs := SegmentHashes(env, items[i].tensor.data);
    assert FiledRefs(hs, now) == FiledRefs(hs, first);
    forall j | 0 <= j < i + 1
      ensures AllFiled(SegmentHashes(env, items[..i + 1][j].tensor.data), first)
              && after[j] == RefiledEntry(env, items[..i + 1][j], first)
    {
      if j < i {
        assert after[j] == es[j] && items[..i + 1][j] == items[..i][j];
      }
    }
  }

  /** The table lists the items, under whatever references. */
  ghost predicate Listed(env: Env, items: seq<LiveItem>, es: seq<TocEntry>) {
    && |es| == |items|
    && forall i :: 0 <= i < |items| ==>
                     && es[i].keyHash == env.keyHash(items[i].key) && es[i].key == items[i].key && es[i].tombstone == 0
                     && es[i].dtype == items[i].tensor.dtype && es[i].shape == items[i].tensor.shape && es[i].attrs == items[i].attrs
  }

  /** Items none of whose segments was filed read back. */
  ghost predicate ItemsRead(env: Env, items: seq<LiveItem>, first: map<u128, ContentEntry>, es: seq<TocEntry>, log: Bytes) {
    && |es| <= |items|
    && forall i :: 0 <= i < |es| ==> Fresh(SegmentHashes(env, items[i].tensor.data), first.Keys) ==>
                     ReadTensor(env, log, es[i]) == Success(items[i].tensor)
  }

  lemma ItemsReadGrow(env: Env, items: seq<LiveItem>, first: map<u128, ContentEntry>, es: seq<TocEntry>, log: Bytes, longer: Bytes)
    requires ItemsRead(env, items, first, es, log) && log <= longer
    ensures ItemsRead(env, items, first, es, longer)
  {
    hide SegmentHashes, ReadChunks;
    forall i | 0 <= i < |es| && Fresh(SegmentHashes(env, items[i].tensor.data), first.Keys)
      ensures ReadTensor(env, longer, es[i]) == Success(items[i].tensor)
    {
      ReadChunksGrows(env, log, longer, es[i].chunkRefs, es[i].dtype);
    }
  }

  lemma ItemsReadSnoc(env: Env, items: seq<LiveItem>, first: map<u128, ContentEntry>, es: seq<TocEntry>, after: seq<TocEntry>, log: Bytes)
    requires ItemsRead(env, items, first, es, log) && |after| == |es| + 1 <= |items| && after[..|es|] == es
    requires Fresh(SegmentHashes(env, items[|es|].tensor.data), first.Keys) ==>
               ReadTensor(env, log, after[|es|]) == Success(items[|es|].tensor)
    ensures ItemsRead(env, items, first, after, log)
  {
    hide SegmentHashes, ReadTensor;
    forall i | 0 <= i < |after| && Fresh(SegmentHashes(env, items[i].tensor.data), first.Keys)
      ensures ReadTensor(env, log, after[i]) == Success(items[i].tensor)
    {
      assert i < |es| ==> after[i] == es[i];
    }
  }

  /** What a compaction leaves to readers: keys whose tensors have no filed segment read as before, absent keys stay absent. */
  ghost predicate ReadersKept(env: Env, view: map<Bytes, Tensor>, first: map<u128, ContentEntry>, es: seq<TocEntry>, log: Bytes) {
    forall k: Bytes ::
      && (k !in view ==> Looked(env, log, es, k) == Success(None))
      && (k in view && Fresh(SegmentHashes(env, view[k].data), first.Keys) ==> Looked(env, log, es, k) == Success(Some(view[k])))
  }

  lemma {:induction false} LastListed(env: Env, items: seq<LiveItem>, es: seq<TocEntry>, key: Bytes)
    requires Listed(env, items, es)
    ensures Find(es, key).Some? <==> exists i :: 0 <= i < |items| && items[i].key == key
    ensures Find(es, key).Some? ==> exists i :: 0 <= i < |items| && items[i].key == key && Find(es, key).value == es[i]
  {
    if |es| > 0 {
      var n := |es| - 1;
      LastListed(env, items[..n], es[..n], key);
      if es[n].key == key {
        assert items[n].key == key;
      } else {
        assert forall i :: 0 <= i < n ==> items[..n][i] == items[i] && es[..n][i] == es[i];
      }
    }
  }

  lemma KeptReads(env: Env, keys: iset<Bytes>, h: seq<Record>, items: seq<LiveItem>, first: map<u128, ContentEntry>,
                  es: seq<TocEntry>, log: Bytes)
    requires Injective(env.keyHash, keys) && DeadFirst(h) && items == LiveItems(h, View(h)) && |items| < U32_LIMIT
    requires Listed(env, items, es) && ItemsRead(env, items, first, es, log)
    requires forall i :: 0 <= i < |items| ==> items[i].key in keys
    ensures ReadersKept(env, View(h), first, es, log)
  {
    hide View, LiveItems, SegmentHashes, ReadTensor, LookupIn, IndexOf, Find, LiveRecords;
    var view := View(h);
    forall k: Bytes
      ensures k !in view ==> Looked(env, log, es, k) == Success(None)
      ensures k in view && Fresh(SegmentHashes(env, view[k].data), first.Keys) ==> Looked(env, log, es, k) == Success(Some(view[k]))
    {
      LastListed(env, items, es, k);
      ItemsOfKey(h, view, k);
      LiveInView(h, k);
      if Find(es, k).Some? {
        assert !Shadowed(es, env.keyHash(k), k) by { NotShadowed(env, keys, items, es, k); }
      }
      LookupIsFind(es, env.keyHash(k), k);
    }
  }

  lemma NotShadowed(env: Env, keys: iset<Bytes>, items: seq<LiveItem>, es: seq<TocEntry>, key: Bytes)
    requires Injective(env.keyHash, keys) && Listed(env, items, es)
    requires (forall i :: 0 <= i < |items| ==> items[i].key in keys) && exists i :: 0 <= i < |items| && items[i].key == key
    ensures !Shadowed(es, env.keyHash(key), key)
  {
    if Shadowed(es, env.keyHash(key), key) {
      ShadowWitness(es, env.keyHash(key), key);
    }
  }

  /** The live items of a key hold its current tensor, and there is one if the key has a live record. */
  lemma {:induction false} ItemsOfKey(h: seq<Record>, view: map<Bytes, Tensor>, key: Bytes)
    ensures forall i :: 0 <= i < |LiveItems(h, view)| ==>
              LiveItems(h, view)[i].key in view && LiveItems(h, view)[i].tensor == view[LiveItems(h, view)[i].key]
    ensures key in view && |LiveRecords(h, key)| > 0 ==> exists i :: 0 <= i < |LiveItems(h, view)| && LiveItems(h, view)[i].key == key
  {
    if |h| > 0 {
      var init, r := h[..|h| - 1], h[|h| - 1];
      ItemsOfKey(init, view, key);
      var rest, items := LiveItems(init, view), LiveItems(h, view);
      if r.live && r.key in view {
        assert items == rest + [LiveItem(r.key, view[r.key], r.attrs)] && items[|rest|].key == r.key;
      } else {
        assert items == rest;
      }
      if key in view && |LiveRecords(h, key)| > 0 && !(r.live && r.key == key) {
        var i :| 0 <= i < |rest| && rest[i].key == key;
        assert items[i] == rest[i];
      }
    }
  }

  /** The page is followed at once by a table that lists at least one of the entries. */
  ghost predicate FirstTable(log: Bytes, page: Bytes, es: seq<TocEntry>) {
    exists n: nat, f: FooterFormat.Footer :: 0 < n <= |es| && page + Block(EncodeToc(es[..n]), f) <= log
  }

  ghost predicate TableNext(log: Bytes, page: Bytes, es: seq<TocEntry>) {
    log == page || FirstTable(log, page, es)
  }

  lemma TableNextStep(log: Bytes, after: Bytes, page: Bytes, es: seq<TocEntry>, longer: seq<TocEntry>)
    requires TableNext(log, page, es) && Tabled(log, after, longer) && es <= longer && longer != []
    ensures TableNext(after, page, longer) && (after != log ==> FirstTable(after, page, longer))
  {
    hide Block, EncodeToc;
    if FirstTable(log, page, es) {
      var n: nat, f: FooterFormat.Footer :| 0 < n <= |es| && page + Block(EncodeToc(es[..n]), f) <= log;
      assert es[..n] == longer[..n];
      assert page + Block(EncodeToc(longer[..n]), f) <= after;
    } else if after != log {
      var f: FooterFormat.Footer :| after == log + Block(EncodeToc(longer), f);
      assert longer[..|longer|] == longer;
      assert page + Block(EncodeToc(longer[..|longer|]), f) <= after;
    }
  }

  lemma LastTable(log: Bytes, page: Bytes, es: seq<TocEntry>, f: FooterFormat.Footer)
    requires TableNext(log, page, es) && es != []
    ensures FirstTable(log + Block(EncodeToc(es), f), page, es)
  {
    hide EncodeToc, FooterFormat.Serialize;
    var after := log + Block(EncodeToc(es), f);
    TabledOnce(log, es, f);
    if after == log {
      assert Block(EncodeToc(es), f) == [];
      assert es[..|es|] == es;
      assert page + Block(EncodeToc(es[..|es|]), f) <= after;
    } else {
      TableNextStep(log, after, page, es, es);
    }
  }

  /** How far the puts of a compaction have come: table, trees, chains and the file after the first `i` items. */
  ghost predicate Rewriting(env: Env, count: u16, page: Bytes, items: seq<LiveItem>, i: nat,
                            first: map<u128, ContentEntry>, chains: Chains, shapes: Shapes,
                            now: map<u128, ContentEntry>, chains': Chains, shapes': Shapes, es: seq<TocEntry>, log: Bytes) {
    && |es| == i <= |items| && RefsKept(first, now)
    && count >= 1 && |shapes| == count && AllSized(shapes)
    && Routed(count, TouchesOf(env, count, Rewrites(items)[..i]))
    && Touched(shapes, TouchesOf(env, count, Rewrites(items)[..i])) == Some(shapes')
    && chains' == ChainsAfter(chains, env, Rewrites(items)[..i])
    && Listed(env, items[..i], es) && ItemsRead(env, items, first, es, log)
    && (EachFiled(env, items, first) ==> Refiled(env, items[..i], first, es) && TableNext(log, page, es))
  }

  lemma RewritingStart(env: Env, count: u16, page: Bytes, items: seq<LiveItem>,
                       first: map<u128, ContentEntry>, chains: Chains, shapes: Shapes)
    requires count >= 1 && |shapes| == count && AllSized(shapes)
    ensures Rewriting(env, count, page, items, 0, first, chains, shapes, first, chains, shapes, [], page)
  {
  }

  /** Whether the next put stops, and what its segments are to the store. */
  lemma RewritingNext(env: Env, count: u16, page: Bytes, items: seq<LiveItem>, i: nat,
                      first: map<u128, ContentEntry>, chains: Chains, shapes: Shapes,
                      now: map<u128, ContentEntry>, chains': Chains, shapes': Shapes, es: seq<TocEntry>, log: Bytes)
    requires Rewriting(env, count, page, items, i, first, chains, shapes, now, chains', shapes', es, log) && i < |items|
    ensures |shapes'| == count && AllSized(shapes') && Routed(count, TouchesOf(env, count, Rewrites(items)))
    ensures Routed(count, KeyTouches(env, count, items[i].key, items[i].tensor.data))
    ensures Touched(shapes', KeyTouches(env, count, items[i].key, items[i].tensor.data)).None? ==>
              Touched(shapes, TouchesOf(env, count, Rewrites(items))).None?
    ensures NoneFiled(env, items, first) ==> Fresh(SegmentHashes(env, items[i].tensor.data), first.Keys)
  {
    hide Touched, KeyTouches, TouchesOf, SegmentHashes, ChainsAfter, AllSized, Refiled, TableNext;
    var ps := Rewrites(items);
    TouchesOfStep(shapes, env, count, ps, i);
    PutsRouted(env, count, ps);
    if Touched(shapes', KeyTouches(env, count, items[i].key, items[i].tensor.data)).None? {
      PutsStopped(shapes, env, count, ps, i + 1);
    }
  }

  lemma RewritingBase(env: Env, count: u16, page: Bytes, items: seq<LiveItem>, i: nat,
                      first: map<u128, ContentEntry>, chains: Chains, shapes: Shapes,
                      now: map<u128, ContentEntry>, chains': Chains, shapes': Shapes, es: seq<TocEntry>, log: Bytes)
    requires Rewriting(env, count, page, items, i, first, chains, shapes, now, chains', shapes', es, log)
    ensures |shapes| == count && AllSized(shapes) && |es| == i
  {
  }

  lemma RewritingStep(env: Env, count: u16, page: Bytes, items: seq<LiveItem>, i: nat,
                      first: map<u128, ContentEntry>, chains: Chains, shapes: Shapes,
                      mid: map<u128, ContentEntry>, chains': Chains, shapes': Shapes, es: seq<TocEntry>, log: Bytes,
                      now: map<u128, ContentEntry>, chains'': Chains, shapes'': Shapes, es': seq<TocEntry>, log': Bytes)
    requires Rewriting(env, count, page, items, i, first, chains, shapes, mid, chains', shapes', es, log) && i < |items|
    requires Routed(count, KeyTouches(env, count, items[i].key, items[i].tensor.data))
    requires |shapes'| == count && AllSized(shapes')
    requires Touched(shapes', KeyTouches(env, count, items[i].key, items[i].tensor.data)) == Some(shapes'')
    requires chains'' == ChainAfter(chains', env, Rewrites(items)[i]) && RefsKept(mid, now)
    requires var hs := SegmentHashes(env, items[i].tensor.data);
             && NewEntry(env, es, es', Rewrites(items)[i], |hs|)
             && (AllFiled(hs, mid) ==> es'[|es'| - 1].chunkRefs == FiledRefs(hs, mid) && Tabled(log, log', es'))
             && log <= log' && (Fresh(hs, first.Keys) ==> ReadTensor(env, log', es'[|es'| - 1]) == Success(items[i].tensor))
    ensures Rewriting(env, count, page, items, i + 1, first, chains, shapes, now, chains'', shapes'', es', log')
  {
    hide Touched, KeyTouches, TouchesOf, SegmentHashes, ChainsAfter, ChainAfter, AllSized, Refiled, TableNext, Tabled;
    hide ItemsRead, ReadTensor;
    var ps := Rewrites(items);
    TouchesOfStep(shapes, env, count, ps, i);
    PutsRouted(env, count, ps[..i + 1]);
    ChainsAfterStep(chains, env, ps, i);
    ItemsReadGrow(env, items, first, es, log, log');
    ItemsReadSnoc(env, items, first, es, es', log');
    ListedStep(env, items, i, es, es');
    if EachFiled(env, items, first) {
      assert AllFiled(SegmentHashes(env, items[i].tensor.data), first);
      RefiledStep(env, items, i, first, mid, es, es');
      TableNextStep(log, log', page, es, es');
    }
  }

  lemma ListedStep(env: Env, items: seq<LiveItem>, i: nat, es: seq<TocEntry>, after: seq<TocEntry>)
    requires i < |items| && Listed(env, items[..i], es)
    requires NewEntry(env, es, after, Rewrites(items)[i], |SegmentHashes(env, items[i].tensor.data)|)
    ensures Listed(env, items[..i + 1], after)
  {
    hide SegmentHashes;
    forall j | 0 <= j < i ensures after[j] == es[j] && items[..i + 1][j] == items[..i][j] {
      assert after[..|es|][j] == es[j];
    }
  }

  lemma RewritingDone(env: Env, count: u16, page: Bytes, items: seq<LiveItem>,
                      first: map<u128, ContentEntry>, chains: Chains, shapes: Shapes,
                      now: map<u128, ContentEntry>, chains': Chains, shapes': Shapes, es: seq<TocEntry>, log: Bytes)
    requires Rewriting(env, count, page, items, |items|, first, chains, shapes, now, chains', shapes', es, log)
    ensures Routed(count, TouchesOf(env, count, Rewrites(items))) && |shapes| == count && AllSized(shapes)
    ensures Touched(shapes, TouchesOf(env, count, Rewrites(items))) == Some(shapes')
    ensures chains' == ChainsAfter(chains, env, Rewrites(items)) && |es| == |items|
    ensures Listed(env, items, es) && ItemsRead(env, items, first, es, log)
    ensures EachFiled(env, items, first) ==> Refiled(env, items, first, es) && TableNext(log, page, es)
  {
    assert items[..|items|] == items && Rewrites(items)[..|items|] == Rewrites(items);
  }

  lemma {:induction false} ChainKeys(chains: Chains, env: Env, ps: seq<PutItem>, k: Bytes)
    requires k in ChainsAfter(chains, env, ps)
    ensures k in chains || exists i :: 0 <= i < |ps| && ps[i].key == k
  {
    hide Chained;
    if |ps| > 0 && ps[|ps| - 1].key != k {
      ChainKeys(chains, env, ps[..|ps| - 1], k);
    }
  }

  /** A compaction that puts every live record again leaves no chain without one. */
  lemma Settle(h: seq<Record>, chains: Chains, env: Env, items: seq<LiveItem>)
    requires DeadFirst(h) && ChainsLive(h, chains) && items == LiveItems(h, View(h))
    ensures ChainsLive(Rewritten(items), ChainsAfter(chains, env, Rewrites(items)))
  {
    hide LiveRecords, View, LiveItems, ChainsAfter;
    var after := Rewritten(items);
    RewrittenView(h);
    forall k | k in ChainsAfter(chains, env, Rewrites(items)) ensures |LiveRecords(after, k)| > 0 {
      ChainKeys(chains, env, Rewrites(items), k);
      if k in chains {
        LiveInView(h, k);
        LiveInView(after, k);
      } else {
        var i :| 0 <= i < |items| && Rewrites(items)[i].key == k;
        SomeLive(after, i);
      }
    }
  }

  // ---------- a batch item by item ----------

  /** The processed chunks of a batch item, with the segments they were made of. */
  ghost predicate ItemWork(env: Env, blobs: iset<Bytes>, it: BatchItem, chunks: seq<ProcessedChunk>, segs: seq<Bytes>) {
    WorkOk(env, blobs, chunks, segs) && Concat(segs) == it.data && HashSeq(chunks) == SegmentHashes(env, it.data)
  }

  /** How far a batch has been committed: trees and chains after the first `i` items. */
  ghost predicate Batched(env: Env, count: u16, items: seq<BatchItem>, i: nat, chains: Chains, shapes: Shapes,
                          chains': Chains, shapes': Shapes) {
    && i <= |items| && count >= 1 && |shapes| == count && AllSized(shapes)
    && Routed(count, TouchesOf(env, count, BatchPuts(items)[..i]))
    && Touched(shapes, TouchesOf(env, count, BatchPuts(items)[..i])) == Some(shapes')
    && chains' == ChainsAfter(chains, env, BatchPuts(items)[..i])
  }

  /** Some item's tree stops. */
  ghost predicate Stops(env: Env, count: u16, items: seq<BatchItem>, shapes: Shapes) {
    && count >= 1 && |shapes| == count && AllSized(shapes) && Routed(count, TouchesOf(env, count, BatchPuts(items)))
    && Touched(shapes, TouchesOf(env, count, BatchPuts(items))).None?
  }

  lemma BatchedNone(env: Env, count: u16, items: seq<BatchItem>, chains: Chains, shapes: Shapes)
    requires count >= 1 && |shapes| == count && AllSized(shapes)
    ensures Batched(env, count, items, 0, chains, shapes, chains, shapes)
  {
  }

  lemma BatchedNext(env: Env, count: u16, items: seq<BatchItem>, i: nat, chains: Chains, shapes: Shapes,
                    chains': Chains, shapes': Shapes)
    requires Batched(env, count, items, i, chains, shapes, chains', shapes') && i < |items|
    ensures |shapes'| == count && AllSized(shapes') && Routed(count, KeyTouches(env, count, items[i].key, items[i].data))
    ensures Touched(shapes', KeyTouches(env, count, items[i].key, items[i].data)).None? ==> Stops(env, count, items, shapes)
  {
    hide Touched, KeyTouches, TouchesOf, ChainsAfter, AllSized;
    var ps := BatchPuts(items);
    TouchesOfStep(shapes, env, count, ps, i);
    PutsRouted(env, count, ps);
    if Touched(shapes', KeyTouches(env, count, items[i].key, items[i].data)).None? {
      PutsStopped(shapes, env, count, ps, i + 1);
    }
  }

  lemma BatchedStep(env: Env, count: u16, items: seq<BatchItem>, i: nat, chains: Chains, shapes: Shapes,
                    chains': Chains, shapes': Shapes, chains'': Chains, shapes'': Shapes)
    requires Batched(env, count, items, i, chains, shapes, chains', shapes') && i < |items|
    requires |shapes'| == count && AllSized(shapes') && Routed(count, KeyTouches(env, count, items[i].key, items[i].data))
    requires Touched(shapes', KeyTouches(env, count, items[i].key, items[i].data)) == Some(shapes'')
    requires chains'' == ChainAfter(chains', env, BatchPut(items[i]))
    ensures Batched(env, count, items, i + 1, chains, shapes, chains'', shapes'')
  {
    hide Touched, KeyTouches, TouchesOf, ChainsAfter, ChainAfter, AllSized;
    var ps := BatchPuts(items);
    TouchesOfStep(shapes, env, count, ps, i);
    PutsRouted(env, count, ps[..i + 1]);
    ChainsAfterStep(chains, env, ps, i);
  }

  lemma BatchedEnd(env: Env, count: u16, items: seq<BatchItem>, i: nat, chains: Chains, shapes: Shapes,
                   chains': Chains, shapes': Shapes)
    requires Batched(env, count, items, i, chains, shapes, chains', shapes')
    ensures Routed(count, TouchesOf(env, count, BatchPuts(items))) && |shapes| == count >= 1 && AllSized(shapes)
    ensures i == |items| ==> Touched(shapes, TouchesOf(env, count, BatchPuts(items))) == Some(shapes')
    ensures Stops(env, count, items, shapes) ==> Touched(shapes, TouchesOf(env, count, BatchPuts(items))).None?
    ensures chains' == ChainsAfter(chains, env, BatchPuts(items)[..i])
  {
    hide Touched, ChainsAfter, AllSized;
    PutsRouted(env, count, BatchPuts(items));
    assert BatchPuts(items)[..|items|] == BatchPuts(items);
  }

  lemma LeaksNone(chains: Chains, env: Env, items: seq<BatchItem>, filed: set<u128>)
    ensures LeakOf(EvictedBy(chains, env, BatchPuts(items)[..0]), filed) == multiset{}
  {
  }

  lemma LeaksStep(env: Env, count: u16, items: seq<BatchItem>, i: nat, chains: Chains, shapes: Shapes,
                  chains': Chains, shapes': Shapes, filed: set<u128>)
    requires Batched(env, count, items, i, chains, shapes, chains', shapes') && i < |items|
    ensures LeakOf(EvictedBy(chains, env, BatchPuts(items)[..i + 1]), filed)
            == LeakOf(EvictedBy(chains, env, BatchPuts(items)[..i]), filed)
               + LeakOf(PutEvicts(chains', env, BatchPut(items[i])), filed)
  {
    hide LeakOf, EvictedBy, PutEvicts, ChainsAfter, Touched, TouchesOf;
    var ps := BatchPuts(items);
    EvictedByStep(chains, env, ps, i);
    LeakJoin(EvictedBy(chains, env, ps[..i]), PutEvicts(chains', env, ps[i]), filed);
  }

  /** A whole row has one reference per chunk and reads back the item. */
  lemma RowWhole(env: Env, log: Bytes, blobs: iset<Bytes>, chunks: seq<ProcessedChunk>, row: Row, segs: seq<Bytes>)
    requires WorkOk(env, blobs, chunks, segs) && RowOk(env, log, row, segs) && Complete(row)
    ensures HoldsAll(env, log, Filled(row), Concat(segs)) && |Filled(row)| == |HashSeq(chunks)|
  {
    hide HoldsAll, Holds, Concat;
    RowReads(env, log, row, segs);
    FilledSize(row);
  }

  lemma {:induction false} FilledSize(row: Row)
    requires Complete(row)
    ensures |Filled(row)| == |row|
  {
    if |row| > 0 {
      FilledSize(row[..|row| - 1]);
    }
  }

  // ---------- the books of a batch ----------

  /** How many of `n` uses of a hash a batch never counts: all but one, unless the hash was filed before. */
  function Surplus(n: nat, known: bool): nat {
    if known || n == 0 then 0 else n - 1
  }

  /** A batch misses nothing if and only if no hash that is new to the store occurs twice in it. */
  lemma MissesNothing(before: multiset<u128>, after: multiset<u128>, total: multiset<u128>, known: set<u128>)
    requires forall h :: after[h] == before[h] + Surplus(total[h], h in known)
    ensures after == before <==> forall h :: h !in known ==> total[h] <= 1
  {
    if after == before {
      forall h | h !in known ensures total[h] <= 1 {
        assert after[h] == before[h] + Surplus(total[h], h in known);
      }
    }
  }

  lemma {:induction false} HashesInFrom(env: Env, items: seq<BatchItem>, work: seq<seq<ProcessedChunk>>, i: nat)
    requires |work| == |items| && i <= |work|
    requires forall t :: 0 <= t < |work| ==> HashSeq(work[t]) == SegmentHashes(env, items[t].data)
    ensures HashesFrom(work, i) == HashesIn(env, BatchPuts(items)[i..])
    decreases |work| - i
  {
    hide HashSeq, SegmentHashes;
    var ps := BatchPuts(items);
    if i < |work| {
      HashesInFrom(env, items, work, i + 1);
      assert ps[i..][1..] == ps[i + 1..] && ps[i..][0] == ps[i];
    }
  }

  lemma WorkHashes(env: Env, blobs: iset<Bytes>, items: seq<BatchItem>, work: seq<seq<ProcessedChunk>>, segs: seq<seq<Bytes>>, i: nat)
    requires |work| == |items| == |segs| && i <= |work|
    requires forall t :: 0 <= t < |work| ==> ItemWork(env, blobs, items[t], work[t], segs[t])
    ensures HashesFrom(work, i) == HashesIn(env, BatchPuts(items)[i..])
    ensures i == |work| ==> HashesIn(env, BatchPuts(items)[i..]) == multiset{}
  {
    hide HashSeq, SegmentHashes, WorkOk, Concat;
    HashesInFrom(env, items, work, i);
  }

  function HashKeys(env: Env, ps: seq<PutItem>): set<u128> {
    set h | h in HashesIn(env, ps)
  }

  // ---------- which hashes a batch files, and which uses it misses ----------

  /** No pending write is of a hash that was filed before. */
  ghost predicate Unfiled(ps: seq<PendingWrite>, known: set<u128>) {
    forall q :: 0 <= q < |ps| ==> ps[q].contentHash !in known
  }

  lemma UnfiledNone(known: set<u128>)
    ensures Unfiled([], known)
  {
  }

  lemma {:induction false} PendingUnfiled(ps: seq<PendingWrite>, known: set<u128>, h: u128)
    requires Unfiled(ps, known) && h in PendingHashes(ps)
    ensures h !in known
  {
    if |ps| > 0 && h != ps[|ps| - 1].contentHash {
      PendingUnfiled(ps[..|ps| - 1], known, h);
    }
  }

  lemma ChunkFresh(chunks: seq<ProcessedChunk>, stale: set<u128>, c: nat)
    requires Fresh(HashSeq(chunks), stale) && c < |chunks|
    ensures chunks[c].contentHash !in stale
  {
    assert HashSeq(chunks)[c] == chunks[c].contentHash;
  }

  /** The hashes written are filed, and all their uses but the first are missed unless they were filed before. */
  ghost predicate Missing(before: map<u128, ContentEntry>, after: map<u128, ContentEntry>, written: multiset<u128>,
                          missed: multiset<u128>, missed': multiset<u128>) {
    && (forall h :: h in after <==> h in before || h in written)
    && (forall h :: missed'[h] == missed[h] + Surplus(written[h], h in before))
  }

  lemma MissingNone(entries: map<u128, ContentEntry>, ps: seq<PendingWrite>, missed: multiset<u128>)
    ensures Missing(entries, entries, PendingHashes(ps[..0]), missed, missed)
  {
  }

  lemma MissingStep(first: map<u128, ContentEntry>, mid: map<u128, ContentEntry>, now: map<u128, ContentEntry>,
                    ps: seq<PendingWrite>, q: nat, missed: multiset<u128>, missed': multiset<u128>, missed'': multiset<u128>)
    requires q < |ps| && Unfiled(ps, first.Keys) && Missing(first, mid, PendingHashes(ps[..q]), missed, missed')
    requires Filed(mid, now, {ps[q].contentHash})
    requires missed'' == missed' + if ps[q].contentHash in mid then multiset{ps[q].contentHash} else multiset{}
    ensures Missing(first, now, PendingHashes(ps[..q + 1]), missed, missed'')
  {
    hide PendingHashes, RefsKept;
    var h := ps[q].contentHash;
    PendingHashesSnoc(ps[..q], ps[q]);
    assert ps[..q + 1] == ps[..q] + [ps[q]];
    var more := PendingHashes(ps[..q + 1]);
    assert h in PendingHashes(ps[..q]) || h !in PendingHashes(ps[..q]);
    if h in mid {
      assert h in PendingHashes(ps[..q]);
    }
    forall x ensures x in now <==> x in first || x in more {
      assert x in now.Keys <==> x in mid.Keys + {h};
    }
  }

  /** Writes and counted hits together: everything the batch uses. */
  lemma MissingAll(before: map<u128, ContentEntry>, counted: map<u128, ContentEntry>, after: map<u128, ContentEntry>,
                   ps: seq<PendingWrite>, hits: multiset<u128>, total: multiset<u128>, missed: multiset<u128>, missed': multiset<u128>)
    requires Filed(before, counted, {}) && Missing(counted, after, PendingHashes(ps), missed, missed')
    requires Unfiled(ps, counted.Keys) && (forall h :: h in hits ==> h in counted) && PendingHashes(ps) + hits == total
    ensures Missing(before, after, total, missed, missed')
  {
    hide PendingHashes, RefsKept, Unfiled;
    var pending := PendingHashes(ps);
    forall h
      ensures h in after <==> h in before || h in total
      ensures missed'[h] == missed[h] + Surplus(total[h], h in before)
    {
      assert h in counted.Keys <==> h in before.Keys + {};
      assert total[h] == pending[h] + hits[h];
      if h in pending {
        PendingUnfiled(ps, counted.Keys, h);
      }
    }
  }

  /** The books of a committed batch, in terms of the puts. */
  lemma BatchBooks(env: Env, blobs: iset<Bytes>, items: seq<BatchItem>, work: seq<seq<ProcessedChunk>>, segs: seq<seq<Bytes>>,
                   first: map<u128, ContentEntry>, mid: map<u128, ContentEntry>, now: map<u128, ContentEntry>,
                   missed: multiset<u128>, missed': multiset<u128>)
    requires |work| == |items| == |segs|
    requires forall t :: 0 <= t < |work| ==> ItemWork(env, blobs, items[t], work[t], segs[t])
    requires Missing(first, mid, HashesFrom(work, 0), missed, missed') && Filed(mid, now, {})
    ensures now.Keys == first.Keys + HashKeys(env, BatchPuts(items))
    ensures forall h :: missed'[h] == missed[h] + Surplus(HashesIn(env, BatchPuts(items))[h], h in first)
  {
    hide HashesIn, HashesFrom, ItemWork, BatchPuts, RefsKept;
    WorkHashes(env, blobs, items, work, segs, 0);
    var ps := BatchPuts(items);
    assert ps[0..] == ps;
    forall h ensures h in now.Keys <==> h in first.Keys + HashKeys(env, ps) {
      assert h in now.Keys <==> h in mid.Keys + {};
    }
  }

  /**
   * What a batch of puts has done to trees, chains, store keys and books once its first `committed` items
   * are recorded. A hash that is new to the store and used n times by the batch is counted once only, so
   * n - 1 uses are missed; the uses of items that were never recorded leak.
   */
  ghost predicate BatchDone(env: Env, count: u16, ps: seq<PutItem>, committed: nat,
                            chains: Chains, shapes: Shapes, filed: set<u128>, missed: multiset<u128>, leaked: multiset<u128>,
                            chains': Chains, shapes': Shapes, filed': set<u128>, missed': multiset<u128>, leaked': multiset<u128>)
  {
    && committed <= |ps| && |shapes| == count >= 1 && AllSized(shapes) && Routed(count, TouchesOf(env, count, ps))
    && (committed == |ps| ==> Touched(shapes, TouchesOf(env, count, ps)) == Some(shapes'))
    && (committed < |ps| ==> Touched(shapes, TouchesOf(env, count, ps)).None?)
    && chains' == ChainsAfter(chains, env, ps[..committed])
    && filed' == filed + HashKeys(env, ps)
    && (forall h :: missed'[h] == missed[h] + Surplus(HashesIn(env, ps)[h], h in filed))
    && leaked' == leaked + LeakOf(EvictedBy(chains, env, ps[..committed]), filed') + HashesIn(env, ps[committed..])
  }

  lemma BatchNothing(env: Env, count: u16, chains: Chains, shapes: Shapes, filed: set<u128>, missed: multiset<u128>, leaked: multiset<u128>)
    requires count >= 1 && |shapes| == count && AllSized(shapes)
    ensures BatchDone(env, count, BatchPuts([]), 0, chains, shapes, filed, missed, leaked, chains, shapes, filed, missed, leaked)
  {
  }

  lemma BatchAll(env: Env, blobs: iset<Bytes>, count: u16, items: seq<BatchItem>, work: seq<seq<ProcessedChunk>>, segs: seq<seq<Bytes>>,
                 committed: nat, chains: Chains, shapes: Shapes, first: map<u128, ContentEntry>, missed: multiset<u128>, leaked: multiset<u128>,
                 mid: map<u128, ContentEntry>, chains': Chains, shapes': Shapes, now: map<u128, ContentEntry>,
                 missed': multiset<u128>, leaked': multiset<u128>)
    requires |work| == |items| == |segs| && committed <= |items|
    requires forall t :: 0 <= t < |work| ==> ItemWork(env, blobs, items[t], work[t], segs[t])
    requires Missing(first, mid, HashesFrom(work, 0), missed, missed') && Filed(mid, now, {})
    requires Batched(env, count, items, committed, chains, shapes, chains', shapes')
    requires committed < |items| ==> Stops(env, count, items, shapes)
    requires leaked' == leaked + LeakOf(EvictedBy(chains, env, BatchPuts(items)[..committed]), now.Keys)
                        + HashesIn(env, BatchPuts(items)[committed..])
    ensures BatchDone(env, count, BatchPuts(items), committed, chains, shapes, first.Keys, missed, leaked,
                      chains', shapes', now.Keys, missed', leaked')
  {
    hide Missing, Filed, Batched, Stops, Touched, TouchesOf, ChainsAfter, HashesIn, HashesFrom, EvictedBy, LeakOf, ItemWork, HashKeys, Surplus, AllSized;
    BatchBooks(env, blobs, items, work, segs, first, mid, now, missed, missed');
    BatchedEnd(env, count, items, committed, chains, shapes, chains', shapes');
  }
}

// Several versions of one key: which ids are listed under a policy, and what each of them reads
// (crates/tpx-shard/src/engine.rs, crates/tpx-version/src/chain.rs).

module VersionRuns {
  import opened Wrappers
  import opened Types
  import opened TocIndex
  import opened ChunkIo
  import opened History
  import opened VersionChainModel
  import opened Ledger
  import opened EngineState
  import opened ShardTrees
  import opened Puts
  import opened Engine
  import Utf8

  /** How many of `k` versions `KeepLastN(n)` leaves. */
  function LastOf(k: nat, n: u32): nat {
    if k <= n || k <= 1 then k else if n == 0 then 1 else n
  }

  /** The ids of the policy's share of the puts, and the tensor of each. */
  ghost predicate Answers(ts: seq<Tensor>, n: u32, ids: Result<seq<nat>, TpxError>, found: seq<Result<Option<Tensor>, TpxError>>) {
    && var (k, m) := (|ts|, LastOf(|ts|, n));
    && ids.Success? && |ids.value| == |found| == m
    && forall i :: 0 <= i < m ==> ids.value[i] == k - m + i && found[i] == Success(Some(ts[k - m + i]))
  }

  ghost predicate Putable(e: ShardedEngine, key: Bytes, t: Tensor)
    reads e
  {
    key in e.keys && Utf8.Valid(key) && SegmentsIn(e.env, e.blobs, t.data) && Fresh(SegmentHashes(e.env, t.data), e.stale)
  }

  /** The first `i` tensors are the key's only records, and the policy's share of them its versions. */
  ghost predicate Holding(e: ShardedEngine, key: Bytes, ts: seq<Tensor>, i: nat, n: u32)
    requires i <= |ts|
    reads e, e.io, e.toc, e.content
  {
    && e.Valid() && e.mode != ReadOnly && key !in e.shift
    && (i == 0 ==> key !in e.chains)
    && (i > 0 ==> key in e.chains && |e.chains[key].versions| == LastOf(i, n))
    && OnlyPut(e.Records(), key, ts, i)
  }

  ghost predicate OnlyPut(h: seq<Record>, key: Bytes, ts: seq<Tensor>, i: nat)
    requires i <= |ts|
  {
    |KeyRecords(h, key)| == i && forall j :: 0 <= j < i ==> KeyRecords(h, key)[j].live && KeyRecords(h, key)[j].tensor == ts[j]
  }

  lemma OnlyPutMore(h: seq<Record>, key: Bytes, ts: seq<Tensor>, i: nat)
    requires i < |ts| && OnlyPut(h, key, ts, i)
    ensures OnlyPut(h + [Record(key, ts[i], map[], true)], key, ts, i + 1)
  {
    hide KeyRecords;
    KeySnoc(h, Record(key, ts[i], map[], true), key);
  }

  /**
   * Puts the tensors under one new key with `KeepLastN(n)`, then lists and reads its versions: the ids are
   * those of the last max(n, 1) puts, or of all if there are fewer, and each of them reads its put. On
   * trees without holes no put stops.
   */
  method PutVersions(e: ShardedEngine, key: Bytes, ts: seq<Tensor>, n: u32)
      returns (stopped: bool, ids: Result<seq<nat>, TpxError>, found: seq<Result<Option<Tensor>, TpxError>>)
    requires e.Valid() && e.mode != ReadOnly && key !in e.chains && KeyRecords(e.Records(), key) == [] && ts != []
    requires |e.toc.entries| + |ts| < U32_LIMIT && forall i :: 0 <= i < |ts| ==> Putable(e, key, ts[i])
    modifies e, e.io, e.toc, e.content
    ensures AllPacked(old(e.Shapes())) ==> !stopped
    ensures !stopped ==> Answers(ts, n, ids, found)
  {
    hide ShardedEngine.Valid, ShardedEngine.Records, KeyRecords, AllPacked, ShardedEngine.Shapes, SegmentsIn, SegmentHashes, Fresh, Utf8.Valid;
    hide ShardedEngine.StorageOk, ShardedEngine.TreesOk, IndexOf, LookupIn;
    NothingHeld(e, key, ts, n);
    ghost var stale, size := e.stale, |e.toc.entries|;
    stopped := false;
    for i := 0 to |ts|
      invariant Holding(e, key, ts, i, n) && e.stale == stale && |e.toc.entries| == size + i
      invariant AllPacked(old(e.Shapes())) ==> AllPacked(e.Shapes())
    {
      assert Putable(e, key, ts[i]);
      var more := PutVersion(e, key, ts, i, n);
      if !more {
        return true, Failure(KeyNotFound), [];
      }
    }
    ids, found := ReadVersions(e, key, ts, n);
  }

  lemma NothingHeld(e: ShardedEngine, key: Bytes, ts: seq<Tensor>, n: u32)
    requires e.Valid() && e.mode != ReadOnly && key !in e.chains && KeyRecords(e.Records(), key) == []
    ensures Holding(e, key, ts, 0, n)
  {
    hide KeyRecords, LiveRecords, ShardedEngine.StorageOk, ShardedEngine.TreesOk;
    assert ChainOk(e.Records(), e.chains, e.shift, key);
  }

  lemma PutParts(e: ShardedEngine)
    requires e.Valid()
    ensures e.Sound() && e.CoreValid() && |e.Records()| == |e.toc.entries| && |e.Shapes()| == e.shardCount >= 1 && AllSized(e.Shapes())
  {
    hide ShardedEngine.StorageOk;
  }

  method PutVersion(e: ShardedEngine, key: Bytes, ts: seq<Tensor>, i: nat, n: u32) returns (more: bool)
    requires i < |ts| && Holding(e, key, ts, i, n) && Putable(e, key, ts[i]) && |e.toc.entries| + 1 < U32_LIMIT
    modifies e, e.io, e.toc, e.content
    ensures AllPacked(old(e.Shapes())) ==> more && AllPacked(e.Shapes())
    ensures more ==> Holding(e, key, ts, i + 1, n) && e.stale == old(e.stale) && |e.toc.entries| == |old(e.toc.entries)| + 1
  {
    hide ShardedEngine.Valid, ShardedEngine.CoreValid, ShardedEngine.Records, ShardedEngine.Shapes, ShardedEngine.StorageOk, ShardedEngine.TreesOk;
    hide KeyRecords, OnlyPut, LastOf, AllPacked, AllSized, SegmentsIn, SegmentHashes, Fresh, Utf8.Valid, Touched, KeyTouches, Routed, ChainAfter, PutEvicts;
    hide NewEntry, Filed, FirstAt, AllFiled, FiledRefs, Tabled, LeakOf, ReadTensor, HashSet, IndexOf, ShardedEngine.CommitStep, KeepsLast;
    PutParts(e);
    NoAttrs();
    var t := ts[i];
    ghost var h, chains, p := e.Records(), e.chains, PutItem(key, t, map[], Some(KeepLastN(n)));
    KeyRouted(e.env, e.shardCount, key, t.data);
    if AllPacked(e.Shapes()) {
      OnePutRuns(e.env, e.shardCount, e.Shapes(), key, t.data);
    }
    PutKeepsLast(chains, e.env, p);
    OnlyPutMore(h, key, ts, i);
    var r := e.PutWithRetention(key, t.data, t.dtype, t.shape, map[], KeepLastN(n), 0);
    more := r.Returned?;
    if more {
      PutParts(e);
      OneMore(chains, e.env, p, n, i);
    }
  }

  lemma OnePutRuns(env: Env, count: u16, shapes: Shapes, key: Bytes, data: Bytes)
    requires count >= 1 && |shapes| == count && AllSized(shapes) && AllPacked(shapes)
    ensures Routed(count, KeyTouches(env, count, key, data))
    ensures var r := Touched(shapes, KeyTouches(env, count, key, data)); r.Some? && AllPacked(r.value)
  {
    KeyRouted(env, count, key, data);
    PutsNeverStop(shapes, KeyTouches(env, count, key, data));
  }

  lemma KeySnoc(h: seq<Record>, r: Record, key: Bytes)
    ensures KeyRecords(h + [r], key) == if r.key == key then KeyRecords(h, key) + [r] else KeyRecords(h, key)
  {
    assert (h + [r])[..|h|] == h;
  }

  /** The policy's share grows by one until it is full. */
  lemma OneMore(chains: Chains, env: Env, p: PutItem, n: u32, i: nat)
    requires p.policy == Some(KeepLastN(n))
    requires (i == 0 ==> p.key !in chains) && (i > 0 ==> p.key in chains && |chains[p.key].versions| == LastOf(i, n))
    ensures p.key in ChainAfter(chains, env, p) && |ChainAfter(chains, env, p)[p.key].versions| == LastOf(i + 1, n)
  {
    hide ChainAfter, PutEvicts, PutHashes;
    assert p.key in ChainAfter(chains, env, p) by { ChainThere(chains, env, p); }
    PutKeepsLast(chains, env, p);
  }

  lemma ChainThere(chains: Chains, env: Env, p: PutItem)
    ensures p.key in ChainAfter(chains, env, p)
  {
  }

  /** What `list_versions` and `get_version` answer then. */
  method ReadVersions(e: ShardedEngine, key: Bytes, ts: seq<Tensor>, n: u32)
      returns (ids: Result<seq<nat>, TpxError>, found: seq<Result<Option<Tensor>, TpxError>>)
    requires ts != [] && Holding(e, key, ts, |ts|, n)
    modifies e.io
    ensures Answers(ts, n, ids, found)
  {
    hide ShardedEngine.Valid, ShardedEngine.CoreValid, ShardedEngine.Records, ShardedEngine.StorageOk, ShardedEngine.TreesOk;
    hide KeyRecords, LiveRecords, View, IndexOf, LookupIn, CountLive, VersionRead;
    PutParts(e);
    AllLive(e, key, |ts|);
    ids := e.ListVersionIds(key);
    found := [];
    for i := 0 to |ids.value|
      invariant Holding(e, key, ts, |ts|, n) && e.chains == old(e.chains)
      invariant |found| == i && forall j :: 0 <= j < i ==> found[j] == Success(Some(ts[ids.value[j]]))
    {
      assert ids.value[i] in ids.value;
      var one := ReadVersion(e, key, ts, n, ids.value[i]);
      found := found + [one];
    }
  }

  method ReadVersion(e: ShardedEngine, key: Bytes, ts: seq<Tensor>, n: u32, id: nat) returns (r: Result<Option<Tensor>, TpxError>)
    requires ts != [] && Holding(e, key, ts, |ts|, n) && id < |ts| && id in ListVersions(e.chains[key])
    modifies e.io
    ensures Holding(e, key, ts, |ts|, n) && r == Success(Some(ts[id]))
  {
    hide ShardedEngine.Valid, ShardedEngine.CoreValid, ShardedEngine.Records, ShardedEngine.StorageOk, ShardedEngine.TreesOk;
    hide KeyRecords, LiveRecords, View, IndexOf, LookupIn, CountLive, VersionRead;
    PutParts(e);
    AllLive(e, key, |ts|);
    r := e.GetVersion(key, id);
    PutParts(e);
  }

  lemma AllLive(e: ShardedEngine, key: Bytes, k: nat)
    requires e.Valid() && key !in e.shift && |KeyRecords(e.Records(), key)| == k > 0
    requires forall j :: 0 <= j < k ==> KeyRecords(e.Records(), key)[j].live
    ensures Lead(e.shift, key) == 0 && |LiveRecords(e.Records(), key)| == k && key in View(e.Records())
  {
    hide KeyRecords, LiveRecords, View, ShardedEngine.StorageOk, ShardedEngine.TreesOk;
    var h := e.Records();
    assert KeyRecords(h, key)[0].live;
    LiveAreLast(h, key);
    LiveInView(h, key);
  }
}

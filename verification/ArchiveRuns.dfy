// Whole runs of an archive, driven operation by operation through puts, batches, deletes, checkpoints,
// compactions and crashes, against the two plain maps they are meant to implement: what is stored now,
// and what a crash would leave.

module ArchiveRuns {
  import opened Wrappers
  import opened Types
  import opened AttrsFormat
  import opened TocFormat
  import opened TocIndex
  import opened ChunkIo
  import opened History
  import opened VersionChainModel
  import opened Ledger
  import opened EngineBatch
  import opened EngineState
  import opened ShardTrees
  import opened Puts
  import opened Recovery
  import opened Engine
  import ArtRuns
  import FooterFormat
  import LittleEndian
  import Utf8

  datatype Op =
    | Put(key: Bytes, tensor: Tensor, attrs: AttrMap, policy: RetentionPolicy, elapsed: nat)
    | Batch(items: seq<BatchItem>, elapsed: nat)
    | Delete(dead: Bytes)
    | Checkpoint
    | Compact
    | Crash(tail: Bytes)

  /** Why a run ended: because it was over, or because of its next operation. */
  datatype Ending =
    | Finished
    | TreeStopped   // the insert into a radix tree ran into an empty slot
    | CutAway       // the operation needs a chunk that a compaction cut off, or would cut off
    | FalseFooter   // the crash left bytes that pass for a later footer
    | TooLarge      // the table or the file no longer fits its fields

  // ---------- what a run means ----------

  /** The tensors stored now, and those that a crash would leave. */
  datatype Maps = Maps(now: map<Bytes, Tensor>, saved: map<Bytes, Tensor>)

  function Meaning(m: map<Bytes, Tensor>, op: Op): map<Bytes, Tensor> {
    match op
    case Put(key, tensor, _, _, _) => m[key := tensor]
    case Batch(items, _) => PutEach(m, items)
    case Delete(key) => m - {key}
    case _ => m
  }

  function PutEach(m: map<Bytes, Tensor>, items: seq<BatchItem>): map<Bytes, Tensor> {
    if |items| == 0 then m
    else
      var it := items[|items| - 1];
      PutEach(m, items[..|items| - 1])[it.key := Tensor(it.dtype, it.shape, it.data)]
  }

  /** A put or batch may be followed by a checkpoint of its own; a checkpoint and a compaction always are. */
  function Next(a: Maps, op: Op, renewed: bool): Maps {
    if op.Crash? then Maps(a.saved, a.saved)
    else
      var now := Meaning(a.now, op);
      Maps(now, if renewed || op.Checkpoint? || op.Compact? then now else a.saved)
  }

  function Fold(a: Maps, ops: seq<Op>, renewed: seq<bool>): Maps
    requires |renewed| == |ops|
  {
    if |ops| == 0 then a
    else Next(Fold(a, ops[..|ops| - 1], renewed[..|ops| - 1]), ops[|ops| - 1], renewed[|ops| - 1])
  }

  lemma FoldNone(a: Maps, ops: seq<Op>)
    ensures Fold(a, ops[..0], []) == a
  {
  }

  lemma FoldStep(a: Maps, ops: seq<Op>, renewed: seq<bool>, i: nat, r: bool)
    requires i < |ops| && |renewed| == i
    ensures Fold(a, ops[..i + 1], renewed + [r]) == Next(Fold(a, ops[..i], renewed), ops[i], r)
  {
    assert ops[..i + 1][..i] == ops[..i] && (renewed + [r])[..i] == renewed;
  }

  // ---------- what the operations bring along ----------

  /** What callers owe the engine: valid keys, storable attributes, and data whose hashes are trusted. */
  ghost predicate OpOk(env: Env, keys: iset<Bytes>, blobs: iset<Bytes>, op: Op) {
    match op
    case Put(key, tensor, attrs, _, _) => key in keys && Utf8.Valid(key) && AllStorable(attrs) && SegmentsIn(env, blobs, tensor.data)
    case Batch(items, _) => forall i :: 0 <= i < |items| ==> ItemOk(env, keys, blobs, items[i])
    case _ => true
  }

  ghost predicate InBlobs(env: Env, blobs: iset<Bytes>, m: map<Bytes, Tensor>) {
    forall k :: k in m ==> SegmentsIn(env, blobs, m[k].data)
  }

  lemma {:induction false} EachInBlobs(env: Env, keys: iset<Bytes>, blobs: iset<Bytes>, m: map<Bytes, Tensor>, items: seq<BatchItem>)
    requires InBlobs(env, blobs, m) && forall i :: 0 <= i < |items| ==> ItemOk(env, keys, blobs, items[i])
    ensures InBlobs(env, blobs, PutEach(m, items))
  {
    hide SegmentsIn, Utf8.Valid;
    if |items| > 0 {
      assert ItemOk(env, keys, blobs, items[|items| - 1]);
      EachInBlobs(env, keys, blobs, m, items[..|items| - 1]);
    }
  }

  lemma NextInBlobs(env: Env, keys: iset<Bytes>, blobs: iset<Bytes>, a: Maps, op: Op, renewed: bool)
    requires InBlobs(env, blobs, a.now) && InBlobs(env, blobs, a.saved) && OpOk(env, keys, blobs, op)
    ensures InBlobs(env, blobs, Next(a, op, renewed).now) && InBlobs(env, blobs, Next(a, op, renewed).saved)
  {
    hide SegmentsIn, Utf8.Valid, AllStorable, ItemOk;
    if op.Batch? {
      EachInBlobs(env, keys, blobs, a.now, op.items);
    }
  }

  /** How many table entries the operation may add. */
  function Size(op: Op): nat {
    match op
    case Put(_, _, _, _, _) => 1
    case Batch(items, _) => |items|
    case _ => 0
  }

  // ---------- what the operations do to the radix trees ----------

  function OpTouches(env: Env, count: u16, op: Op): seq<Touch> {
    match op
    case Put(key, tensor, _, _, _) => KeyTouches(env, count, key, tensor.data)
    case Batch(items, _) => TouchesOf(env, count, BatchPuts(items))
    case Delete(key) => [Touch(ShardForKey(env, key, count), ArtRuns.Del(key))]
    case _ => []
  }

  function RunTouches(env: Env, count: u16, ops: seq<Op>): seq<Touch> {
    if |ops| == 0 then [] else RunTouches(env, count, ops[..|ops| - 1]) + OpTouches(env, count, ops[|ops| - 1])
  }

  /** One session: neither reopened nor compacted, so that its trees are those it started with. */
  predicate Session(ops: seq<Op>) {
    forall i :: 0 <= i < |ops| ==> !ops[i].Crash? && !ops[i].Compact?
  }

  lemma OpRouted(env: Env, count: u16, op: Op)
    requires count >= 1
    ensures Routed(count, OpTouches(env, count, op))
  {
    if op.Batch? {
      PutsRouted(env, count, BatchPuts(op.items));
    }
  }

  lemma {:induction false} RunRouted(env: Env, count: u16, ops: seq<Op>)
    requires count >= 1
    ensures Routed(count, RunTouches(env, count, ops))
  {
    hide OpTouches;
    if |ops| > 0 {
      RunRouted(env, count, ops[..|ops| - 1]);
      OpRouted(env, count, ops[|ops| - 1]);
    }
  }

  lemma RunTouchesStep(shapes: Shapes, env: Env, count: u16, ops: seq<Op>, i: nat)
    requires count >= 1 && |shapes| == count && AllSized(shapes) && i < |ops|
    ensures Routed(count, RunTouches(env, count, ops[..i])) && Routed(count, RunTouches(env, count, ops[..i + 1]))
    ensures Routed(count, OpTouches(env, count, ops[i]))
    ensures var before := Touched(shapes, RunTouches(env, count, ops[..i]));
            Touched(shapes, RunTouches(env, count, ops[..i + 1]))
            == if before.None? then None else Touched(before.value, OpTouches(env, count, ops[i]))
  {
    hide Touched, AllSized, OpTouches, Routed;
    assert ops[..i + 1][..i] == ops[..i];
    RunRouted(env, count, ops[..i]);
    RunRouted(env, count, ops[..i + 1]);
    OpRouted(env, count, ops[i]);
    TouchedAppend(shapes, RunTouches(env, count, ops[..i]), OpTouches(env, count, ops[i]));
  }

  /** A tree that stops early stops the whole run. */
  lemma {:induction false} RunStopped(shapes: Shapes, env: Env, count: u16, ops: seq<Op>, i: nat)
    requires count >= 1 && |shapes| == count && AllSized(shapes) && i <= |ops|
    requires Routed(count, RunTouches(env, count, ops[..i])) && Touched(shapes, RunTouches(env, count, ops[..i])).None?
    ensures Routed(count, RunTouches(env, count, ops)) && Touched(shapes, RunTouches(env, count, ops)).None?
    decreases |ops| - i
  {
    hide Touched, AllSized, Routed;
    if i == |ops| {
      assert ops[..i] == ops;
    } else {
      RunTouchesStep(shapes, env, count, ops, i);
      RunStopped(shapes, env, count, ops, i + 1);
    }
  }

  /** How the trees of a session have come along. */
  ghost predicate Grown(env: Env, count: u16, ops: seq<Op>, i: nat, shapes: Shapes, now: Shapes)
    requires i <= |ops|
  {
    && count >= 1 && |shapes| == count && AllSized(shapes)
    && Routed(count, RunTouches(env, count, ops[..i])) && Touched(shapes, RunTouches(env, count, ops[..i])) == Some(now)
  }

  lemma GrownNone(start: ShardedEngine, ops: seq<Op>)
    requires start.TreesOk()
    ensures Grown(start.env, start.shardCount, ops, 0, start.Shapes(), start.Shapes())
    ensures |start.Shapes()| == start.shardCount && AllSized(start.Shapes())
    ensures Routed(start.shardCount, RunTouches(start.env, start.shardCount, ops))
  {
    RunRouted(start.env, start.shardCount, ops);
  }

  lemma GrownStep(env: Env, count: u16, ops: seq<Op>, i: nat, shapes: Shapes, before: Shapes, after: Shapes)
    requires i < |ops| && Grown(env, count, ops, i, shapes, before)
    requires |before| == count && AllSized(before) && Routed(count, OpTouches(env, count, ops[i]))
    requires Touched(before, OpTouches(env, count, ops[i])) == Some(after)
    ensures Grown(env, count, ops, i + 1, shapes, after)
  {
    hide Touched, AllSized, OpTouches, RunTouches;
    RunTouchesStep(shapes, env, count, ops, i);
  }

  lemma GrownStops(env: Env, count: u16, ops: seq<Op>, i: nat, shapes: Shapes, before: Shapes)
    requires i < |ops| && Grown(env, count, ops, i, shapes, before)
    requires |before| == count && AllSized(before) && Routed(count, OpTouches(env, count, ops[i]))
    requires Touched(before, OpTouches(env, count, ops[i])).None?
    ensures |shapes| == count && AllSized(shapes) && Routed(count, RunTouches(env, count, ops))
    ensures Touched(shapes, RunTouches(env, count, ops)).None?
  {
    hide Touched, AllSized, OpTouches, RunTouches;
    RunTouchesStep(shapes, env, count, ops, i);
    RunStopped(shapes, env, count, ops, i + 1);
  }

  lemma GrownAll(env: Env, count: u16, ops: seq<Op>, shapes: Shapes, now: Shapes)
    requires Grown(env, count, ops, |ops|, shapes, now)
    ensures |shapes| == count && AllSized(shapes) && Routed(count, RunTouches(env, count, ops))
    ensures Touched(shapes, RunTouches(env, count, ops)) == Some(now)
  {
    assert ops[..|ops|] == ops;
  }

  // ---------- the history under one operation ----------

  lemma ViewSnoc(h: seq<Record>, r: Record)
    requires r.live
    ensures View(h + [r]) == View(h)[r.key := r.tensor]
  {
    assert (h + [r])[..|h|] == h;
  }

  lemma {:induction false} BatchView(h: seq<Record>, items: seq<BatchItem>)
    ensures View(h + BatchRecords(items)) == PutEach(View(h), items)
  {
    if |items| == 0 {
      assert h + BatchRecords(items) == h;
    } else {
      var init, it := items[..|items| - 1], items[|items| - 1];
      var r := Record(it.key, Tensor(it.dtype, it.shape, it.data), map[], true);
      BatchView(h, init);
      assert h + BatchRecords(items) == h + BatchRecords(init) + [r];
      ViewSnoc(h + BatchRecords(init), r);
    }
  }

  // ---------- a batch as single puts ----------

  /** The items put one at a time by `put`, which sets the policy of each chain. */
  function SinglePuts(items: seq<BatchItem>): (ps: seq<PutItem>)
    ensures |ps| == |items|
  {
    seq(|items|, i requires 0 <= i < |items| => BatchPut(items[i]).(policy := Some(KeepLatest)))
  }

  ghost predicate LatestOnly(chains: Chains, keys: set<Bytes>) {
    forall k :: k in keys && k in chains ==> chains[k].retention == KeepLatest
  }

  /**
   * A batch leaves the very history, trees and chains that its items leave when put one at a time, and
   * evicts the same versions, if every chain it touches keeps the latest version only.
   */
  lemma {:induction false} BatchIsPuts(env: Env, count: u16, chains: Chains, items: seq<BatchItem>, keys: set<Bytes>)
    requires LatestOnly(chains, keys) && forall i :: 0 <= i < |items| ==> items[i].key in keys
    ensures var (batch, single) := (BatchPuts(items), SinglePuts(items));
            && ChainsAfter(chains, env, batch) == ChainsAfter(chains, env, single)
            && LatestOnly(ChainsAfter(chains, env, batch), keys)
            && EvictedBy(chains, env, batch) == EvictedBy(chains, env, single)
            && TouchesOf(env, count, batch) == TouchesOf(env, count, single)
    ensures |BatchRecords(items)| == |items|
    ensures forall i :: 0 <= i < |items| ==>
              BatchRecords(items)[i] == Record(SinglePuts(items)[i].key, SinglePuts(items)[i].tensor, SinglePuts(items)[i].attrs, true)
  {
    hide ChainAfter, PutEvicts, SegmentHashes, KeyTouches;
    if |items| > 0 {
      var n := |items| - 1;
      BatchIsPuts(env, count, chains, items[..n], keys);
      assert BatchPuts(items)[..n] == BatchPuts(items[..n]) && SinglePuts(items)[..n] == SinglePuts(items[..n]);
      OnePut(env, ChainsAfter(chains, env, BatchPuts(items[..n])), BatchPut(items[n]), keys);
    }
  }

  lemma OnePut(env: Env, chains: Chains, p: PutItem, keys: set<Bytes>)
    requires LatestOnly(chains, keys) && p.key in keys && p.policy == None
    ensures var q := p.(policy := Some(KeepLatest));
            ChainAfter(chains, env, p) == ChainAfter(chains, env, q) && PutEvicts(chains, env, p) == PutEvicts(chains, env, q)
    ensures LatestOnly(ChainAfter(chains, env, p), keys)
  {
    hide Evicted, SegmentHashes;
    assert Pushing(chains, p.key, None) == Pushing(chains, p.key, Some(KeepLatest));
  }

  // ---------- one operation on the engine ----------

  /** The engine means `a.now`, and every chunk of a hash in `cut` has been cut off. */
  ghost predicate Running(e: ShardedEngine, a: Maps, cut: set<u128>)
    reads e, e.io, e.toc, e.content
  {
    && e.Valid() && e.mode == ReadWrite && e.stale == cut && View(e.Records()) == a.now
    && InBlobs(e.env, e.blobs, a.now) && InBlobs(e.env, e.blobs, a.saved)
  }

  /** A crash now would leave `a.saved`. */
  ghost predicate Secured(e: ShardedEngine, a: Maps)
    reads e, e.io, e.toc, e.content
  {
    e.Valid() && e.commitLen > 0 && View(e.CommittedRecords()) == a.saved
  }

  /** Whether the last commit was kept or renewed, its history is the one that a crash leaves. */
  lemma CommitAfter(e: ShardedEngine, len: nat, durable: Bytes, es: seq<TocEntry>, saved: seq<Record>)
    requires e.Valid() && e.CommitStep(len, durable, es) && 0 < len <= |durable|
    requires Readable(e.env, durable[..len], es) && saved == HistoryOf(e.env, durable[..len], es)
    ensures e.FreshCommit() && e.Committable() ==> e.commitLen > 0 && e.CommittedRecords() == e.Records()
    ensures !e.FreshCommit() ==> e.commitLen > 0 && e.CommittedRecords() == saved
  {
    hide HistoryOf, Readable, TableOk, ChainsOk, ChainsLive, Balanced, StoreSound, Committed, Uses, Trusted, AllFit;
    if e.FreshCommit() && e.Committable() {
      e.FreshCommitIsCurrent();
    }
  }

  lemma Commitment(e: ShardedEngine)
    requires e.Valid() && e.commitLen > 0
    ensures e.commitLen <= |e.io.durable| && Readable(e.env, e.io.durable[..e.commitLen], e.commitEntries)
    ensures e.CommittedRecords() == HistoryOf(e.env, e.io.durable[..e.commitLen], e.commitEntries)
  {
    hide HistoryOf, Readable, ChainsOk, ChainsLive, Balanced, StoreSound, Committed, Uses, Trusted;
    TableParts(e.env, e.keys, e.io.durable[..e.commitLen], e.commitEntries);
  }

  lemma Parts(e: ShardedEngine)
    requires e.Valid()
    ensures e.Sound() && e.CoreValid() && e.io.Valid() && e.CommitOk() && e.shardCount >= 1
  {
  }

  method ApplyPut(e: ShardedEngine, op: Op, ghost a: Maps, cut: set<u128>) returns (ending: Option<Ending>, ghost renewed: bool)
    requires op.Put? && OpOk(e.env, e.keys, e.blobs, op) && Running(e, a, cut) && Secured(e, a) && |e.toc.entries| + 1 < U32_LIMIT
    modifies e, e.io, e.toc, e.content
    ensures Routed(e.shardCount, OpTouches(e.env, e.shardCount, op)) && e.Sound()
    ensures ending in {None, Some(TreeStopped), Some(CutAway)}
    ensures ending == None ==>
              && Running(e, Next(a, op, renewed), cut) && (e.Committable() ==> Secured(e, Next(a, op, renewed)))
              && Touched(old(e.Shapes()), OpTouches(e.env, e.shardCount, op)) == Some(e.Shapes())
    ensures ending == Some(TreeStopped) ==>
              Running(e, a, cut) && Touched(old(e.Shapes()), OpTouches(e.env, e.shardCount, op)).None?
    ensures ending == Some(CutAway) ==> Running(e, a, cut) && Secured(e, a) && NeedsCut(e.env, op, cut)
  {
    hide ShardedEngine.Valid, ShardedEngine.CoreValid, ShardedEngine.StorageOk, ShardedEngine.TreesOk, ShardedEngine.CommitOk;
    hide ShardedEngine.CommitStep, ShardedEngine.FreshCommit, ShardedEngine.Committable, ShardedEngine.Records, ShardedEngine.CommittedRecords;
    hide View, InBlobs, SegmentsIn, SegmentHashes, Fresh, Touched, KeyTouches, Routed, NewEntry, ChainAfter, PutEvicts, LeakOf, Filed, Looked;
    hide AllFiled, FiledRefs, Tabled, HashSet, IndexOf, HistoryOf, ShardedEngine.Shapes;
    renewed := false;
    Parts(e);
    OpRouted(e.env, e.shardCount, op);
    ghost var h := e.Records();
    NextInBlobs(e.env, e.keys, e.blobs, a, op, false);
    NextInBlobs(e.env, e.keys, e.blobs, a, op, true);
    ViewSnoc(h, Record(op.key, op.tensor, op.attrs, true));
    if !Fresh(SegmentHashes(e.env, op.tensor.data), cut) {
      return Some(CutAway), false;
    }
    ghost var len, durable, es, saved := e.commitLen, e.io.durable, e.commitEntries, e.CommittedRecords();
    Commitment(e);
    var r := e.PutWithRetention(op.key, op.tensor.data, op.tensor.dtype, op.tensor.shape, op.attrs, op.policy, op.elapsed);
    Parts(e);
    if r.Panicked? {
      return Some(TreeStopped), false;
    }
    renewed := e.FreshCommit();
    ending := None;
    CommitAfter(e, len, durable, es, saved);
  }

  /** Some segment of the operation was filed under a chunk that is cut off. */
  ghost predicate NeedsCut(env: Env, op: Op, cut: set<u128>) {
    match op
    case Put(_, tensor, _, _, _) => !Fresh(SegmentHashes(env, tensor.data), cut)
    case Batch(items, _) => exists i :: 0 <= i < |items| && !Fresh(SegmentHashes(env, items[i].data), cut)
    case _ => false
  }

  method ApplyBatch(e: ShardedEngine, op: Op, ghost a: Maps, cut: set<u128>) returns (ending: Option<Ending>, ghost renewed: bool)
    requires op.Batch? && OpOk(e.env, e.keys, e.blobs, op) && Running(e, a, cut) && Secured(e, a)
    requires |e.toc.entries| + |op.items| < U32_LIMIT
    modifies e, e.io, e.toc, e.content
    ensures Routed(e.shardCount, OpTouches(e.env, e.shardCount, op)) && e.Sound()
    ensures ending in {None, Some(TreeStopped), Some(CutAway)}
    ensures ending == None ==>
              && Running(e, Next(a, op, renewed), cut) && (e.Committable() ==> Secured(e, Next(a, op, renewed)))
              && Touched(old(e.Shapes()), OpTouches(e.env, e.shardCount, op)) == Some(e.Shapes())
    ensures ending == Some(TreeStopped) ==>
              && e.Valid() && Touched(old(e.Shapes()), OpTouches(e.env, e.shardCount, op)).None?
              && exists n: nat :: n < |op.items| && View(e.Records()) == PutEach(a.now, op.items[..n])
    ensures ending == Some(CutAway) ==> Running(e, a, cut) && Secured(e, a) && NeedsCut(e.env, op, cut)
  {
    hide ShardedEngine.Valid, ShardedEngine.CoreValid, ShardedEngine.StorageOk, ShardedEngine.TreesOk, ShardedEngine.CommitOk;
    hide ShardedEngine.CommitStep, ShardedEngine.FreshCommit, ShardedEngine.Committable, ShardedEngine.Records, ShardedEngine.CommittedRecords;
    hide View, InBlobs, SegmentHashes, Fresh, Touched, Routed, IndexOf, HistoryOf, ShardedEngine.Shapes, ItemOk, BatchRecords;
    hide ChainsAfter, EvictedBy, LeakOf, HashesIn, HashKeys, Surplus, TouchesOf, BatchPuts, PutEach;
    renewed := false;
    Parts(e);
    OpRouted(e.env, e.shardCount, op);
    ghost var h := e.Records();
    NextInBlobs(e.env, e.keys, e.blobs, a, op, false);
    NextInBlobs(e.env, e.keys, e.blobs, a, op, true);
    var whole := forall i :: 0 <= i < |op.items| ==> Fresh(SegmentHashes(e.env, op.items[i].data), cut);
    if !whole {
      return Some(CutAway), false;
    }
    ghost var len, durable, es, saved := e.commitLen, e.io.durable, e.commitEntries, e.CommittedRecords();
    Commitment(e);
    var r;
    ghost var committed;
    r, committed := e.PutBatch(op.items, op.elapsed);
    Parts(e);
    BatchView(h, op.items[..committed]);
    if r.Panicked? {
      assert View(e.Records()) == PutEach(a.now, op.items[..committed]);
      return Some(TreeStopped), false;
    }
    assert op.items[..committed] == op.items;
    renewed := e.FreshCommit();
    ending := None;
    CommitAfter(e, len, durable, es, saved);
  }

  method ApplyDelete(e: ShardedEngine, op: Op, ghost a: Maps, cut: set<u128>)
    requires op.Delete? && Running(e, a, cut) && Secured(e, a)
    modifies e, e.io, e.toc, e.content
    ensures Routed(e.shardCount, OpTouches(e.env, e.shardCount, op)) && e.Sound()
    ensures Running(e, Next(a, op, false), cut) && Secured(e, Next(a, op, false))
    ensures Touched(old(e.Shapes()), OpTouches(e.env, e.shardCount, op)) == Some(e.Shapes())
  {
    hide ShardedEngine.Valid, ShardedEngine.CoreValid, ShardedEngine.StorageOk, ShardedEngine.TreesOk, ShardedEngine.CommitOk;
    hide ShardedEngine.Records, ShardedEngine.CommittedRecords, View, Touched, Routed, IndexOf, HistoryOf, ShardedEngine.Shapes, Dead;
    hide Uses, ShardForKey, SegmentsIn;
    Parts(e);
    Commitment(e);
    DeadView(e.Records(), op.dead);
    ShardIs(e.env, op.dead, e.shardCount);
    var r := e.Delete(op.dead);
    Parts(e);
    Commitment(e);
  }

  method ApplyCheckpoint(e: ShardedEngine, op: Op, ghost a: Maps, cut: set<u128>)
    requires op.Checkpoint? && Running(e, a, cut) && Secured(e, a)
    modifies e, e.io, e.toc, e.content
    ensures Routed(e.shardCount, OpTouches(e.env, e.shardCount, op)) && e.Sound()
    ensures Running(e, Next(a, op, true), cut) && (e.Committable() ==> Secured(e, Next(a, op, true)))
    ensures Touched(old(e.Shapes()), OpTouches(e.env, e.shardCount, op)) == Some(e.Shapes())
  {
    hide ShardedEngine.Valid, ShardedEngine.CoreValid, ShardedEngine.StorageOk, ShardedEngine.TreesOk, ShardedEngine.CommitOk;
    hide ShardedEngine.Committable, ShardedEngine.FreshCommit, ShardedEngine.Records, ShardedEngine.CommittedRecords;
    hide View, IndexOf, HistoryOf, InBlobs, Block, EncodeToc;
    Parts(e);
    assert |e.Shapes()| == e.shardCount && AllSized(e.Shapes()) by { TreeSizes(e); }
    var r := e.ExecuteCheckpoint(false, true);
    Parts(e);
    if e.Committable() {
      e.FreshCommitIsCurrent();
    }
  }

  lemma TreeSizes(e: ShardedEngine)
    requires e.TreesOk()
    ensures |e.Shapes()| == e.shardCount && AllSized(e.Shapes())
  {
  }

  /** Compaction, if no segment of a live tensor is filed in the content store. */
  method ApplyCompact(e: ShardedEngine, op: Op, ghost a: Maps, cut: set<u128>)
      returns (ending: Option<Ending>, cut': set<u128>)
    requires op.Compact? && Running(e, a, cut) && Secured(e, a)
    modifies e, e.io, e.toc, e.content
    ensures e.Sound() && ending in {None, Some(TreeStopped), Some(CutAway)}
    ensures ending == None ==> Running(e, Next(a, op, true), cut') && (e.Committable() ==> Secured(e, Next(a, op, true)))
    ensures ending == Some(TreeStopped) ==> e.Valid()
    ensures ending == Some(CutAway) ==>
              && Running(e, a, cut) && Secured(e, a)
              && !NoneFiled(e.env, LiveItems(e.Records(), View(e.Records())), e.content.entries)
  {
    hide ShardedEngine.Valid, ShardedEngine.CoreValid, ShardedEngine.StorageOk, ShardedEngine.TreesOk, ShardedEngine.CommitOk;
    hide ShardedEngine.Committable, ShardedEngine.FreshCommit, ShardedEngine.Records, ShardedEngine.CommittedRecords;
    hide View, IndexOf, HistoryOf, SegmentsIn, LiveItems, Touched, Routed, TouchesOf, ChainsAfter, Leads, Refiled, FirstTable, NoneFiled, EachFiled;
    Parts(e);
    Commitment(e);
    var items := e.CollectLive();
    Parts(e);
    Commitment(e);
    if !NoneFiled(e.env, items, e.content.entries) {
      return Some(CutAway), cut;
    }
    cut' := e.content.entries.Keys;
    var r := e.Compact();
    Parts(e);
    if r.Panicked? {
      return Some(TreeStopped), cut';
    }
    ending := None;
    if e.Committable() {
      e.FreshCommitIsCurrent();
    }
  }

  /** The process dies, leaving `op.tail` behind what is sure to be on disk, and the archive is opened again. */
  method ApplyCrash(e: ShardedEngine, op: Op, ghost a: Maps, cut: set<u128>)
      returns (ending: Option<Ending>, e': ShardedEngine, cut': set<u128>)
    requires op.Crash? && Running(e, a, cut) && Secured(e, a)
    ensures e'.env == e.env && e'.keys == e.keys && e'.blobs == e.blobs && e'.shardCount == e.shardCount && e'.Sound()
    ensures ending in {None, Some(FalseFooter)}
    ensures ending == None ==>
              && fresh(e') && fresh(e'.io) && fresh(e'.toc) && fresh(e'.content)
              && Running(e', Next(a, op, false), cut') && Secured(e', Next(a, op, false))
    ensures ending == Some(FalseFooter) ==>
              e' == e && cut' == cut && |e.io.durable| >= HEADER_SIZE && !CleanTail(e.io.durable, op.tail)
  {
    hide ShardedEngine.Valid, ShardedEngine.CoreValid, ShardedEngine.StorageOk, ShardedEngine.TreesOk, ShardedEngine.CommitOk;
    hide ShardedEngine.Records, ShardedEngine.CommittedRecords, View, IndexOf, HistoryOf, InBlobs, Recover, CleanTail, Committed, Uses, AllPacked;
    Parts(e);
    OnDisk(e);
    var file := e.io.durable;
    CleanLength(file, op.tail, e.shardCount, e.commitEntries);
    var image := file + op.tail;
    var found := Recover(image);
    if found.Failure? || found.value.cleanLen != |file| {
      return Some(FalseFooter), e, cut;
    }
    var r := Restart(e, image, ReadWrite, op.tail);
    e', cut' := r.result.value, {};
    Parts(e');
    ending := None;
  }

  lemma OnDisk(e: ShardedEngine)
    requires e.Valid() && e.mode == ReadWrite && e.commitLen > 0
    ensures e.commitLen == |e.io.durable| >= HEADER_SIZE && e.io.durable[..e.commitLen] == e.io.durable
    ensures Committed(e.io.durable, e.shardCount, e.commitEntries)
  {
    hide TableOk, ChainsOk, ChainsLive, Balanced, StoreSound, Committed, Uses, Trusted, HistoryOf;
    assert e.io.durable[..e.commitLen] == e.io.durable;
  }

  // ---------- whole runs ----------

  /** What the engine is left with when the operation stops it or cannot be allowed. */
  ghost predicate Halted(e: ShardedEngine, a: Maps, op: Op, ending: Ending)
    reads e, e.io, e.toc, e.content
  {
    match ending
    case TreeStopped =>
      (op.Put? && e.Valid() && View(e.Records()) == a.now)
      || (op.Batch? && e.Valid() && exists n: nat :: n < |op.items| && View(e.Records()) == PutEach(a.now, op.items[..n]))
      || op.Compact?
    case CutAway =>
      && e.Valid() && View(e.Records()) == a.now && Secured(e, a)
      && (NeedsCut(e.env, op, e.stale)
          || (op.Compact? && !NoneFiled(e.env, LiveItems(e.Records(), View(e.Records())), e.content.entries)))
    case FalseFooter =>
      && e.Valid() && View(e.Records()) == a.now && Secured(e, a)
      && op.Crash? && |e.io.durable| >= HEADER_SIZE && !CleanTail(e.io.durable, op.tail)
    case _ => false
  }

  /** One operation: it is done, or it halts the run. */
  method Apply(e: ShardedEngine, op: Op, ghost a: Maps, cut: set<u128>)
      returns (ending: Option<Ending>, e': ShardedEngine, cut': set<u128>, ghost renewed: bool)
    requires OpOk(e.env, e.keys, e.blobs, op) && Running(e, a, cut) && Secured(e, a) && |e.toc.entries| + Size(op) < U32_LIMIT
    modifies e, e.io, e.toc, e.content
    ensures e' == e || (op.Crash? && fresh(e') && fresh(e'.io) && fresh(e'.toc) && fresh(e'.content))
    ensures e'.env == e.env && e'.keys == e.keys && e'.blobs == e.blobs && e'.shardCount == e.shardCount && e'.Sound()
    ensures ending in {None, Some(TreeStopped), Some(CutAway), Some(FalseFooter)}
    ensures Routed(e.shardCount, OpTouches(e.env, e.shardCount, op)) && |old(e.Shapes())| == e.shardCount && AllSized(old(e.Shapes()))
    ensures ending == None ==>
              && Running(e', Next(a, op, renewed), cut') && (e'.Committable() ==> Secured(e', Next(a, op, renewed)))
              && (!op.Crash? && !op.Compact? ==> Touched(old(e.Shapes()), OpTouches(e.env, e.shardCount, op)) == Some(e'.Shapes()))
    ensures ending.Some? ==> e' == e && Halted(e, a, op, ending.value)
    ensures ending == Some(TreeStopped) && !op.Compact? ==> Touched(old(e.Shapes()), OpTouches(e.env, e.shardCount, op)).None?
  {
    hide ShardedEngine.Valid, ShardedEngine.CoreValid, ShardedEngine.StorageOk, ShardedEngine.TreesOk, ShardedEngine.CommitOk;
    hide ShardedEngine.Committable, ShardedEngine.Records, ShardedEngine.CommittedRecords, OpOk, NeedsCut, CleanTail, NoneFiled, LiveItems;
    hide View, IndexOf, HistoryOf, InBlobs, Touched, Routed, OpTouches, PutEach, Next, AllSized, Secured;
    Parts(e);
    TreeSizes(e);
    OpRouted(e.env, e.shardCount, op);
    e', cut', renewed := e, cut, false;
    match op {
      case Put(_, _, _, _, _) =>
        ending, renewed := ApplyPut(e, op, a, cut);
      case Batch(_, _) =>
        ending, renewed := ApplyBatch(e, op, a, cut);
      case Delete(_) =>
        ApplyDelete(e, op, a, cut);
        ending := None;
      case Checkpoint =>
        ApplyCheckpoint(e, op, a, cut);
        ending, renewed := None, true;
      case Compact =>
        ending, cut' := ApplyCompact(e, op, a, cut);
        renewed := true;
      case Crash(_) =>
        ending, e', cut' := ApplyCrash(e, op, a, cut);
    }
  }

  /** The table and the file fit their on-disk fields, so that a checkpoint can be read back. */
  method Representable(e: ShardedEngine) returns (ok: bool)
    requires e.Valid()
    ensures ok == e.Committable()
  {
    hide ShardedEngine.CoreValid, AllFit;
    Parts(e);
    var len := e.io.Len();
    ok := len < U64_LIMIT && AllFit(e.toc.entries);
  }

  /** The first `i` operations are done. */
  ghost predicate Reached(e: ShardedEngine, first: Maps, shapes: Shapes, ops: seq<Op>, i: nat, renewed: seq<bool>, cut: set<u128>)
    requires i <= |ops|
    reads e, e.io, e.toc, e.content
  {
    && |renewed| == i && Running(e, Fold(first, ops[..i], renewed), cut) && Secured(e, Fold(first, ops[..i], renewed))
    && (Session(ops) ==> Grown(e.env, e.shardCount, ops, i, shapes, e.Shapes()))
  }

  /**
   * How a run may end. As long as nothing halts it, the current tensors are the map that the same
   * operations build, and a crash leaves the map of the last commit. A session that neither reopens nor
   * compacts runs through, or is stopped by a tree, just as the touches of its operations do.
   */
  ghost predicate Ended(e: ShardedEngine, first: Maps, shapes: Shapes, ops: seq<Op>, renewed: seq<bool>, ending: Ending)
    reads e, e.io, e.toc, e.content
  {
    && |renewed| <= |ops|
    && var (done, m) := (|renewed|, Fold(first, ops[..|renewed|], renewed));
    && (ending == Finished ==> done == |ops| && e.Valid() && View(e.Records()) == m.now && Secured(e, m))
    && (ending == TooLarge ==>
          && e.Valid() && View(e.Records()) == m.now
          && (!e.Committable() || (done < |ops| && |e.toc.entries| + Size(ops[done]) >= U32_LIMIT)))
    && (ending in {TreeStopped, CutAway, FalseFooter} ==> done < |ops| && Halted(e, m, ops[done], ending))
    && (Session(ops) && ending in {Finished, TreeStopped} ==>
          && |shapes| == e.shardCount && AllSized(shapes) && Routed(e.shardCount, RunTouches(e.env, e.shardCount, ops))
          && Touched(shapes, RunTouches(e.env, e.shardCount, ops)) == if ending == Finished then Some(e.Shapes()) else None)
  }

  /** The next operation, unless it would overflow the table, and what it leads to. */
  method Advance(e: ShardedEngine, ghost first: Maps, ghost shapes: Shapes, ops: seq<Op>, i: nat, ghost renewed: seq<bool>,
                 cut: set<u128>)
      returns (ending: Option<Ending>, e': ShardedEngine, cut': set<u128>, ghost renewed': seq<bool>)
    requires i < |ops| && OpOk(e.env, e.keys, e.blobs, ops[i]) && Reached(e, first, shapes, ops, i, renewed, cut)
    modifies e, e.io, e.toc, e.content
    ensures e' == e || (fresh(e') && fresh(e'.io) && fresh(e'.toc) && fresh(e'.content))
    ensures e'.env == e.env && e'.keys == e.keys && e'.blobs == e.blobs && e'.shardCount == e.shardCount && e'.Sound()
    ensures ending == None ==> Reached(e', first, shapes, ops, i + 1, renewed', cut')
    ensures ending.Some? ==> ending.value != Finished && Ended(e', first, shapes, ops, renewed', ending.value)
  {
    hide ShardedEngine.Valid, ShardedEngine.CoreValid, ShardedEngine.StorageOk, ShardedEngine.TreesOk, ShardedEngine.CommitOk;
    hide ShardedEngine.Committable, ShardedEngine.Records, ShardedEngine.CommittedRecords, OpOk, Halted, Grown;
    hide View, IndexOf, HistoryOf, InBlobs, Touched, Routed, OpTouches, RunTouches, PutEach, Next, AllSized, Fold, Secured;
    Parts(e);
    ghost var a, before := Fold(first, ops[..i], renewed), e.Shapes();
    if |e.toc.entries| + Size(ops[i]) >= U32_LIMIT {
      return Some(TooLarge), e, cut, renewed;
    }
    ghost var r;
    ending, e', cut', r := Apply(e, ops[i], a, cut);
    if ending.Some? {
      if Session(ops) && ending == Some(TreeStopped) {
        GrownStops(e.env, e.shardCount, ops, i, shapes, before);
      }
      renewed' := renewed;
      return;
    }
    FoldStep(first, ops, renewed, i, r);
    if Session(ops) {
      GrownStep(e.env, e.shardCount, ops, i, shapes, before, e'.Shapes());
    }
    renewed' := renewed + [r];
    var ok := Representable(e');
    if !ok {
      ending := Some(TooLarge);
    }
  }

  /** Drives an archive through any operations. */
  method Drive(start: ShardedEngine, ops: seq<Op>) returns (ending: Ending, e: ShardedEngine, ghost renewed: seq<bool>)
    requires start.Valid() && start.mode == ReadWrite && start.commitLen > 0 && start.stale == {}
    requires InBlobs(start.env, start.blobs, View(start.Records())) && InBlobs(start.env, start.blobs, View(start.CommittedRecords()))
    requires forall i :: 0 <= i < |ops| ==> OpOk(start.env, start.keys, start.blobs, ops[i])
    modifies start, start.io, start.toc, start.content
    ensures Ended(e, Maps(old(View(start.Records())), old(View(start.CommittedRecords()))), old(start.Shapes()), ops, renewed, ending)
    ensures e.env == start.env && e.shardCount == start.shardCount && e.Sound()
  {
    hide ShardedEngine.Valid, ShardedEngine.CoreValid, ShardedEngine.StorageOk, ShardedEngine.TreesOk, ShardedEngine.CommitOk;
    hide ShardedEngine.Records, ShardedEngine.CommittedRecords, OpOk, Grown, Session;
    hide View, IndexOf, HistoryOf, InBlobs, Routed, RunTouches, AllSized, Fold;
    Parts(start);
    e, renewed := start, [];
    ghost var first, shapes := Maps(View(start.Records()), View(start.CommittedRecords())), start.Shapes();
    var cut: set<u128> := {};
    GrownNone(start, ops);
    FoldNone(first, ops);
    for i := 0 to |ops|
      invariant e == start || (fresh(e) && fresh(e.io) && fresh(e.toc) && fresh(e.content))
      invariant e.env == start.env && e.keys == start.keys && e.blobs == start.blobs && e.shardCount == start.shardCount && e.Sound()
      invariant Reached(e, first, shapes, ops, i, renewed, cut)
    {
      var halt;
      halt, e, cut, renewed := Advance(e, first, shapes, ops, i, renewed, cut);
      if halt.Some? {
        return halt.value, e, renewed;
      }
    }
    ReachedAll(e, first, shapes, ops, renewed, cut);
    return Finished, e, renewed;
  }

  lemma ReachedAll(e: ShardedEngine, first: Maps, shapes: Shapes, ops: seq<Op>, renewed: seq<bool>, cut: set<u128>)
    requires Reached(e, first, shapes, ops, |ops|, renewed, cut)
    ensures Ended(e, first, shapes, ops, renewed, Finished)
  {
    hide ShardedEngine.Valid, View, Fold, Touched, RunTouches, Routed, AllSized, Grown;
    assert ops[..|ops|] == ops;
    if Session(ops) {
      GrownAll(e.env, e.shardCount, ops, shapes, e.Shapes());
    }
  }

  // ---------- runs that no tree stops ----------

  /** A session of puts, batches and checkpoints on trees without holes, as `open` rebuilds them. */
  lemma PutSessionsRun(env: Env, shapes: Shapes, ops: seq<Op>)
    requires AllPacked(shapes) && |shapes| >= 1 && |shapes| < 0x1_0000
    requires forall i :: 0 <= i < |ops| ==> ops[i].Put? || ops[i].Batch? || ops[i].Checkpoint?
    ensures Session(ops) && AllSized(shapes) && Routed(|shapes|, RunTouches(env, |shapes|, ops))
    ensures Touched(shapes, RunTouches(env, |shapes|, ops)).Some?
  {
    hide Touched, AllPacked, AllSized;
    PackedSized(shapes);
    RunRouted(env, |shapes|, ops);
    OnlyPuts(env, |shapes|, ops);
    PutsNeverStop(shapes, RunTouches(env, |shapes|, ops));
  }

  lemma {:induction false} OnlyPuts(env: Env, count: u16, ops: seq<Op>)
    requires count >= 1 && forall i :: 0 <= i < |ops| ==> ops[i].Put? || ops[i].Batch? || ops[i].Checkpoint?
    ensures forall j :: 0 <= j < |RunTouches(env, count, ops)| ==> RunTouches(env, count, ops)[j].op.Put?
  {
    if |ops| > 0 {
      var op := ops[|ops| - 1];
      OnlyPuts(env, count, ops[..|ops| - 1]);
      if op.Batch? {
        PutsRouted(env, count, BatchPuts(op.items));
      }
    }
  }

  /** Exactly which sessions run: those whose operations run on the tree of every shard. */
  lemma SessionsByShard(env: Env, shapes: Shapes, ops: seq<Op>)
    requires AllSized(shapes) && |shapes| >= 1 && |shapes| < 0x1_0000
    ensures Routed(|shapes|, RunTouches(env, |shapes|, ops))
    ensures Touched(shapes, RunTouches(env, |shapes|, ops)).Some?
            <==> forall s :: 0 <= s < |shapes| ==> ArtRuns.Run(shapes[s], ShardOps(RunTouches(env, |shapes|, ops), s)).Ran?
    ensures (forall s :: 0 <= s < |shapes| ==>
               ArtRuns.TreeOk(shapes[s]) && ArtRuns.RunSafe(shapes[s], ShardOps(RunTouches(env, |shapes|, ops), s))) ==>
              Touched(shapes, RunTouches(env, |shapes|, ops)).Some?
  {
    hide Touched, AllSized, RunTouches, ArtRuns.Run, ArtRuns.RunSafe, ArtRuns.TreeOk;
    SizedEach(shapes);
    RunRouted(env, |shapes|, ops);
    var ts := RunTouches(env, |shapes|, ops);
    TouchedByShard(shapes, ts);
    if forall s :: 0 <= s < |shapes| ==> ArtRuns.TreeOk(shapes[s]) && ArtRuns.RunSafe(shapes[s], ShardOps(ts, s)) {
      SafeNeverStops(shapes, ts);
    }
  }

  lemma EmptyBlock(footer: FooterFormat.Footer)
    requires |footer.magicEnd| == 4
    ensures |Block(EncodeToc([]), footer)| == CHUNK_ALIGN
  {
    hide LittleEndian.Encode, FooterFormat.Serialize;
    assert |EncodeToc([])| == 4;
  }

  /** A new archive with a first checkpoint: a start for any run, with nothing stored and trees without holes. */
  method StartNew(env: Env, shards: Option<u16>, ghost keys: iset<Bytes>, ghost blobs: iset<Bytes>) returns (e: ShardedEngine)
    requires Trusted(env, keys, blobs)
    ensures fresh(e) && fresh(e.io) && fresh(e.toc) && fresh(e.content)
    ensures e.Valid() && e.mode == ReadWrite && e.commitLen > 0 && e.stale == {} && e.env == env && e.keys == keys && e.blobs == blobs
    ensures View(e.Records()) == View(e.CommittedRecords()) == map[] && AllPacked(e.Shapes())
    ensures e.shardCount == (if shards == None then 4 else if shards.value > 1 then shards.value else 1)
  {
    hide ShardedEngine.Valid, ShardedEngine.CoreValid, ShardedEngine.StorageOk, ShardedEngine.TreesOk, ShardedEngine.CommitOk;
    hide ShardedEngine.FreshCommit, ShardedEngine.Records, ShardedEngine.CommittedRecords, AllPacked, NoTrees, Block, EncodeToc;
    e := ShardedEngine.Create(env, [], shards, keys, blobs);
    Parts(e);
    NoTreesPacked(e.shardCount);
    var footer := e.ExecuteCheckpoint(false, true);
    Parts(e);
    EmptyBlock(footer.value);
    assert e.Committable();
    e.FreshCommitIsCurrent();
  }
}

// The radix trees of all shards, and what the engine's operations do to them
// (crates/tpx-shard/src/router.rs, crates/tpx-shard/src/shard.rs, crates/tpx-shard/src/engine.rs).

module ShardTrees {
  import opened Wrappers
  import opened Types
  import opened Art
  import opened ArtProofs
  import opened ArtMap
  import opened ArtRuns
  import opened ArtShape
  import opened ChunkIo
  import opened TocFormat

  function ShardForKey(env: Env, key: Bytes, shardCount: u16): (s: u16)
    ensures shardCount >= 1 ==> s < shardCount
  {
    if shardCount <= 1 then 0 else env.keyHash(key) % shardCount
  }

  /** With one shard or more, the hash of the key modulo their number. */
  lemma ShardIs(env: Env, key: Bytes, shardCount: u16)
    requires shardCount >= 1
    ensures ShardForKey(env, key, shardCount) == env.keyHash(key) % shardCount
  {
  }

  type Shapes = seq<Tree<()>>

  /** One operation on the tree of one shard. */
  datatype Touch = Touch(shard: nat, op: Op<()>)

  ghost predicate AllSized<V>(trees: seq<Tree<V>>) {
    forall i :: 0 <= i < |trees| ==> TreeSized(trees[i])
  }

  function ShapesOf<V>(trees: seq<Tree<V>>): (shapes: Shapes)
    ensures |shapes| == |trees|
  {
    seq(|trees|, i requires 0 <= i < |trees| => ShapeOf(trees[i]))
  }

  lemma ShapesSized<V>(trees: seq<Tree<V>>)
    requires AllSized(trees)
    ensures AllSized(ShapesOf(trees))
  {
    hide TreeSized, ShapeOf;
    forall i | 0 <= i < |trees| ensures TreeSized(ShapesOf(trees)[i]) {
      TreeShapeSized(trees[i]);
    }
  }

  ghost predicate Routed(count: nat, touches: seq<Touch>) {
    forall i :: 0 <= i < |touches| ==> touches[i].shard < count
  }

  /** The shapes after the operations, or nothing if one of them stops the program. */
  function Touched(shapes: Shapes, touches: seq<Touch>): (r: Option<Shapes>)
    requires AllSized(shapes) && Routed(|shapes|, touches)
    ensures r.Some? ==> |r.value| == |shapes| && AllSized(r.value)
    decreases |touches|
  {
    if touches == [] then Some(shapes)
    else
      var t := touches[0];
      assert t.shard < |shapes|;
      var step := Step(shapes[t.shard], t.op);
      if step.Stopped? then None else Touched(shapes[t.shard := step.tree], touches[1..])
  }

  lemma {:induction false} TouchedAppend(shapes: Shapes, a: seq<Touch>, b: seq<Touch>)
    requires AllSized(shapes) && Routed(|shapes|, a) && Routed(|shapes|, b)
    ensures Routed(|shapes|, a + b)
    ensures Touched(shapes, a + b)
            == if Touched(shapes, a).None? then None else Touched(Touched(shapes, a).value, b)
    decreases |a|
  {
    hide Step, AllSized;
    if a == [] {
      assert a + b == b;
    } else {
      assert (a + b)[1..] == a[1..] + b;
      SizedEach(shapes);
      var step := Step(shapes[a[0].shard], a[0].op);
      if step.Ran? {
        SetSized(shapes, a[0].shard, step.tree);
        TouchedAppend(shapes[a[0].shard := step.tree], a[1..], b);
      }
    }
  }

  lemma SetSized<V>(trees: seq<Tree<V>>, s: nat, t: Tree<V>)
    requires AllSized(trees) && s < |trees| && TreeSized(t)
    ensures AllSized(trees[s := t])
  {
    hide TreeSized;
  }

  lemma TouchOne(shapes: Shapes, t: Touch)
    requires AllSized(shapes) && t.shard < |shapes|
    ensures Routed(|shapes|, [t])
    ensures Touched(shapes, [t])
            == if Step(shapes[t.shard], t.op).Stopped? then None else Some(shapes[t.shard := Step(shapes[t.shard], t.op).tree])
  {
    hide Step;
    assert [t][1..] == [];
    if Step(shapes[t.shard], t.op).Ran? {
      SetSized(shapes, t.shard, Step(shapes[t.shard], t.op).tree);
    }
  }

  // ---------- shard by shard ----------

  /** The operations of one shard, in order. */
  function ShardOps(touches: seq<Touch>, s: nat): seq<Op<()>>
    decreases |touches|
  {
    if touches == [] then []
    else (if touches[0].shard == s then [touches[0].op] else []) + ShardOps(touches[1..], s)
  }

  /** The program stops exactly when the run of some shard's tree does; otherwise each tree ran on its own. */
  lemma {:induction false} TouchedByShard(shapes: Shapes, touches: seq<Touch>)
    requires AllSized(shapes) && Routed(|shapes|, touches)
    ensures Touched(shapes, touches).Some? <==> forall s :: 0 <= s < |shapes| ==> Run(shapes[s], ShardOps(touches, s)).Ran?
    ensures Touched(shapes, touches).Some? ==>
              forall s :: 0 <= s < |shapes| ==> Touched(shapes, touches).value[s] == Run(shapes[s], ShardOps(touches, s)).tree
    decreases |touches|
  {
    hide Step, AllSized, TreeSized, Run, ShardOps;
    SizedEach(shapes);
    if touches == [] {
      forall s | 0 <= s < |shapes| ensures Run(shapes[s], ShardOps(touches, s)).Ran? && Run(shapes[s], ShardOps(touches, s)).tree == shapes[s] {
        NoOps(shapes[s], s);
      }
    } else {
      var t := touches[0];
      var step := Step(shapes[t.shard], t.op);
      FirstOps(shapes[t.shard], touches, t.shard);
      if step.Ran? {
        SetSized(shapes, t.shard, step.tree);
        var next := shapes[t.shard := step.tree];
        TouchedByShard(next, touches[1..]);
        forall s | 0 <= s < |shapes|
          ensures Run(shapes[s], ShardOps(touches, s)).Ran? == Run(next[s], ShardOps(touches[1..], s)).Ran?
          ensures Run(shapes[s], ShardOps(touches, s)).Ran? ==>
                    Run(shapes[s], ShardOps(touches, s)).tree == Run(next[s], ShardOps(touches[1..], s)).tree
        {
          FirstOps(shapes[s], touches, s);
        }
      }
    }
  }

  lemma NoOps(t: Tree<()>, s: nat)
    requires TreeSized(t)
    ensures Run(t, ShardOps([], s)).Ran? && Run(t, ShardOps([], s)).tree == t
  {
  }

  /** The first operation belongs to this shard, or leaves it alone. */
  lemma FirstOps(t: Tree<()>, touches: seq<Touch>, s: nat)
    requires TreeSized(t) && touches != []
    ensures touches[0].shard != s ==> ShardOps(touches, s) == ShardOps(touches[1..], s)
    ensures touches[0].shard == s ==>
              && var step := Step(t, touches[0].op);
              && var r := Run(t, ShardOps(touches, s));
              && (step.Stopped? ==> r.Stopped?)
              && (step.Ran? ==>
                    && TreeSized(step.tree)
                    && (r.Ran? <==> Run(step.tree, ShardOps(touches[1..], s)).Ran?)
                    && (r.Ran? ==> r.tree == Run(step.tree, ShardOps(touches[1..], s)).tree))
  {
    hide Step, TreeSized;
    var op, rest := touches[0].op, ShardOps(touches[1..], s);
    assert [] + rest == rest && ([op] + rest)[1..] == rest;
  }

  lemma SizedEach<V>(trees: seq<Tree<V>>)
    requires AllSized(trees)
    ensures forall s :: 0 <= s < |trees| ==> TreeSized(trees[s])
  {
  }

  lemma StepKeepsOk<V>(t: Tree<V>, op: Op<V>)
    requires TreeSized(t) && TreeOk(t) && (op.Put? && t.Some? ==> Safe(t.value, op.key, 0))
    ensures var r := Step(t, op); r.Ran? && TreeOk(r.tree)
  {
    hide Insert, Remove, WF, Sized;
    match op
    case Put(key, value) =>
      if t.Some? {
        InsertRefines(t.value, [], key, value);
      } else {
        LeafWF(Leaf(key, value), []);
        LeafLookup(Leaf(key, value), key, 0);
      }
    case Del(key) =>
      if t.Some? && !t.value.Leaf? {
        RemoveRefines(t.value, [], key);
      }
  }

  lemma {:induction false} SafeRunRuns<V>(t: Tree<V>, ops: seq<Op<V>>)
    requires TreeSized(t) && TreeOk(t) && RunSafe(t, ops)
    ensures Run(t, ops).Ran? && TreeOk(Run(t, ops).tree)
    decreases |ops|
  {
    hide Step, TreeOk, TreeSized, Safe;
    if ops != [] {
      StepKeepsOk(t, ops[0]);
      SafeRunRuns(Step(t, ops[0]).tree, ops[1..]);
    }
  }

  /** Runs that are safe in every shard never stop. */
  lemma SafeNeverStops(shapes: Shapes, touches: seq<Touch>)
    requires AllSized(shapes) && Routed(|shapes|, touches)
    requires forall s :: 0 <= s < |shapes| ==> TreeOk(shapes[s]) && RunSafe(shapes[s], ShardOps(touches, s))
    ensures Touched(shapes, touches).Some?
  {
    hide Run, RunSafe, TreeOk;
    forall s | 0 <= s < |shapes| ensures Run(shapes[s], ShardOps(touches, s)).Ran? {
      SafeRunRuns(shapes[s], ShardOps(touches, s));
    }
    TouchedByShard(shapes, touches);
  }

  // ---------- trees without holes ----------

  ghost predicate PackedTree<V>(t: Tree<V>) {
    TreeSized(t) && TreeOk(t) && (t.Some? ==> Dense(t.value))
  }

  ghost predicate AllPacked(shapes: Shapes) {
    forall s :: 0 <= s < |shapes| ==> PackedTree(shapes[s])
  }

  lemma PackedSized(shapes: Shapes)
    requires AllPacked(shapes)
    ensures AllSized(shapes)
  {
  }

  /** A put into a tree without holes runs, opens none, and binds no other key. */
  lemma PackedPut<V>(t: Tree<V>, key: Bytes, value: V)
    requires PackedTree(t)
    ensures var r := Step(t, Put(key, value));
            r.Ran? && PackedTree(r.tree) && forall k: Bytes :: k != key ==> TreeGet(r.tree, k) == TreeGet(t, k)
  {
    hide Insert, WF, Sized, Dense, Refines, Lookup;
    StepDense(t, Put(key, value));
    StepKeepsOk(t, Put(key, value));
    var r := Step(t, Put(key, value));
    if t.Some? {
      InsertRefines(t.value, [], key, value);
      PutElsewhere(t.value, r.tree.value, key, Some(value));
    } else {
      forall k: Bytes | k != key ensures TreeGet(r.tree, k).None? {
        LeafLookup(Leaf(key, value), k, 0);
      }
    }
  }

  lemma PutElsewhere<V>(n: Node<V>, m: Node<V>, key: Bytes, value: Option<V>)
    requires Sized(n) && Sized(m) && Refines(n, m, [], key, value)
    ensures forall k: Bytes :: k != key ==> Lookup(m, k, 0) == Lookup(n, k, 0)
  {
    forall k: Bytes | k != key ensures Lookup(m, k, 0) == Lookup(n, k, 0) {
      assert [] <= k;
    }
  }

  lemma {:induction false} AbsentIsLast<V>(n: Node<V>, key: Bytes, depth: nat)
    requires Sized(n) && Lookup(n, key, depth).None?
    ensures LastSlot(n, key, depth)
    decreases n
  {
    if !n.Leaf? && depth < |key| && Child(n, key[depth]).Some? {
      AbsentIsLast(Child(n, key[depth]).value, key, depth + 1);
    }
  }

  /** Removing a key that is not there opens no hole either. */
  lemma PackedAbsent<V>(t: Tree<V>, key: Bytes)
    requires PackedTree(t) && TreeGet(t, key).None?
    ensures var r := Step(t, Del(key));
            r.Ran? && PackedTree(r.tree) && forall k: Bytes :: TreeGet(r.tree, k) == TreeGet(t, k)
  {
    hide Insert, Remove, WF, Sized, Dense, Refines, Lookup, LastSlot;
    if t.Some? {
      AbsentIsLast(t.value, key, 0);
    }
    StepDense(t, Del(key));
    StepKeepsOk(t, Del(key));
    var r := Step(t, Del(key));
    if t.Some? && !t.value.Leaf? {
      RemoveRefines(t.value, [], key);
      PutElsewhere(t.value, r.tree.value, key, None);
      assert Lookup(r.tree.value, key, 0) == None by { RefinesKey(t.value, r.tree.value, key); }
    } else if t.Some? {
      LeafLookup(t.value, key, 0);
    }
  }

  lemma RefinesKey<V>(n: Node<V>, m: Node<V>, key: Bytes)
    requires Sized(n) && Sized(m) && Refines(n, m, [], key, None)
    ensures Lookup(m, key, 0) == None
  {
    assert [] <= key;
  }

  lemma SetPacked(shapes: Shapes, s: nat, t: Tree<()>)
    requires AllPacked(shapes) && s < |shapes| && PackedTree(t)
    ensures AllPacked(shapes[s := t])
  {
    hide PackedTree;
  }

  /** From trees without holes, puts never stop and leave no hole. */
  lemma {:induction false} PutsNeverStop(shapes: Shapes, touches: seq<Touch>)
    requires AllPacked(shapes) && AllSized(shapes) && Routed(|shapes|, touches)
    requires forall i :: 0 <= i < |touches| ==> touches[i].op.Put?
    ensures Touched(shapes, touches).Some? && AllPacked(Touched(shapes, touches).value)
    decreases |touches|
  {
    hide PackedTree, Step, AllPacked, AllSized;
    if touches != [] {
      var t := touches[0];
      assert PackedTree(shapes[t.shard]) && TreeSized(shapes[t.shard]) by { PackedAt(shapes, t.shard); }
      PackedPut(shapes[t.shard], t.op.key, t.op.value);
      var step := Step(shapes[t.shard], t.op);
      SetPacked(shapes, t.shard, step.tree);
      PackedSized(shapes[t.shard := step.tree]);
      PutsNeverStop(shapes[t.shard := step.tree], touches[1..]);
    }
  }

  lemma PackedAt(shapes: Shapes, s: nat)
    requires AllPacked(shapes) && s < |shapes|
    ensures PackedTree(shapes[s]) && TreeSized(shapes[s])
  {
  }

  // ---------- rebuilding the trees from a table ----------

  function NoTrees<V>(count: nat): (trees: seq<Tree<V>>)
    ensures |trees| == count
  {
    seq(count, _ => None)
  }

  lemma NoTreesPacked(count: nat)
    ensures AllPacked(NoTrees(count)) && AllSized(NoTrees<()>(count))
  {
  }

  /** A live entry is inserted once per chunk reference, a dead one removed. */
  function EntryTouches(env: Env, count: u16, e: TocEntry): (ts: seq<Touch>) {
    if e.tombstone == 0 then PutTouches(env, count, e.key, |e.chunkRefs|)
    else [Touch(ShardForKey(env, e.key, count), Del(e.key))]
  }

  function PutTouches(env: Env, count: u16, key: Bytes, n: nat): (ts: seq<Touch>)
    ensures |ts| == n
  {
    seq(n, _ => Touch(ShardForKey(env, key, count), Put(key, ())))
  }

  function TableTouches(env: Env, count: u16, es: seq<TocEntry>): (ts: seq<Touch>)
    ensures count >= 1 ==> Routed(count, ts)
  {
    if es == [] then []
    else TableTouches(env, count, es[..|es| - 1]) + EntryTouches(env, count, es[|es| - 1])
  }

  /** Rebuilding the trees from the table stops the program; a shard count of zero is read as one. */
  ghost predicate TableStops(env: Env, count: u16, es: seq<TocEntry>) {
    var n: u16 := if count > 1 then count else 1;
    NoTreesPacked(n);
    Touched(NoTrees(n), TableTouches(env, n, es)).None?
  }

  /** Dead entries of a key come before its live ones. */
  ghost predicate DeadEntriesFirst(es: seq<TocEntry>) {
    forall i, j :: 0 <= i < j < |es| && es[i].key == es[j].key && es[j].tombstone != 0 ==> es[i].tombstone != 0
  }

  ghost predicate LiveIn(es: seq<TocEntry>, key: Bytes) {
    exists i :: 0 <= i < |es| && es[i].key == key && es[i].tombstone == 0
  }

  /** The trees hold keys of live entries only. */
  ghost predicate BoundLive(shapes: Shapes, es: seq<TocEntry>)
    requires AllSized(shapes)
  {
    forall s, k: Bytes :: 0 <= s < |shapes| && TreeGet(shapes[s], k).Some? ==> LiveIn(es, k)
  }

  lemma {:induction false} EntryPuts(shapes: Shapes, env: Env, count: u16, key: Bytes, n: nat, es: seq<TocEntry>)
    requires |shapes| == count >= 1 && AllPacked(shapes) && AllSized(shapes) && BoundLive(shapes, es) && (n > 0 ==> LiveIn(es, key))
    ensures Routed(count, PutTouches(env, count, key, n))
    ensures var r := Touched(shapes, PutTouches(env, count, key, n));
            r.Some? && AllPacked(r.value) && AllSized(r.value) && BoundLive(r.value, es)
    decreases n
  {
    hide Step, AllPacked, AllSized, TreeGet, PackedTree, LiveIn;
    if n > 0 {
      var s := ShardForKey(env, key, count);
      PackedAt(shapes, s);
      PackedPut(shapes[s], key, ());
      var t := Step(shapes[s], Put(key, ())).tree;
      SetPacked(shapes, s, t);
      PackedSized(shapes[s := t]);
      assert TreeSized(t) by { PackedAt(shapes[s := t], s); }
      var next := shapes[s := t];
      forall x, k: Bytes | 0 <= x < |shapes| && TreeGet(next[x], k).Some? ensures LiveIn(es, k) {
        if k != key {
          assert TreeGet(shapes[x], k).Some?;
        }
      }
      assert PutTouches(env, count, key, n)[1..] == PutTouches(env, count, key, n - 1);
      EntryPuts(shapes[s := t], env, count, key, n - 1, es);
    }
  }

  lemma EntryRemoves(shapes: Shapes, env: Env, count: u16, key: Bytes, es: seq<TocEntry>)
    requires |shapes| == count >= 1 && AllPacked(shapes) && AllSized(shapes) && BoundLive(shapes, es) && !LiveIn(es, key)
    ensures var ts := [Touch(ShardForKey(env, key, count), Del(key))];
            Routed(count, ts)
            && var r := Touched(shapes, ts);
               r.Some? && AllPacked(r.value) && AllSized(r.value) && BoundLive(r.value, es)
  {
    hide Step, AllPacked, AllSized, TreeGet, PackedTree, LiveIn;
    var s := ShardForKey(env, key, count);
    PackedAt(shapes, s);
    assert TreeGet(shapes[s], key).None?;
    PackedAbsent(shapes[s], key);
    var t := Step(shapes[s], Del(key)).tree;
    SetPacked(shapes, s, t);
    PackedSized(shapes[s := t]);
    PackedAt(shapes[s := t], s);
    TouchOne(shapes, Touch(s, Del(key)));
    var next := shapes[s := t];
    forall x, k: Bytes | 0 <= x < |shapes| && TreeGet(next[x], k).Some? ensures LiveIn(es, k) {
      assert TreeGet(shapes[x], k).Some?;
    }
  }

  lemma LiveGrows(es: seq<TocEntry>, e: TocEntry)
    ensures forall k: Bytes :: LiveIn(es, k) ==> LiveIn(es + [e], k)
    ensures e.tombstone == 0 ==> LiveIn(es + [e], e.key)
    ensures e.tombstone != 0 ==> forall k: Bytes :: LiveIn(es + [e], k) ==> LiveIn(es, k)
  {
    forall k: Bytes | LiveIn(es, k) ensures LiveIn(es + [e], k) {
      var i :| 0 <= i < |es| && es[i].key == k && es[i].tombstone == 0;
      assert (es + [e])[i] == es[i];
    }
    if e.tombstone == 0 {
      assert (es + [e])[|es|] == e;
    } else {
      forall k: Bytes | LiveIn(es + [e], k) ensures LiveIn(es, k) {
        var i :| 0 <= i < |es + [e]| && (es + [e])[i].key == k && (es + [e])[i].tombstone == 0;
        assert es[i] == (es + [e])[i];
      }
    }
  }

  /** Rebuilding from a table whose dead entries come first never removes a key, so it never stops. */
  lemma {:induction false} TableNeverStops(env: Env, count: u16, es: seq<TocEntry>)
    requires count >= 1 && DeadEntriesFirst(es)
    ensures AllSized(NoTrees<()>(count))
    ensures var r := Touched(NoTrees(count), TableTouches(env, count, es));
            r.Some? && AllPacked(r.value) && AllSized(r.value) && BoundLive(r.value, es)
  {
    hide Touched, AllPacked, AllSized, TreeGet, LiveIn, EntryTouches;
    NoTreesPacked(count);
    if es == [] {
      NoneBound(count);
    } else {
      var init, e := es[..|es| - 1], es[|es| - 1];
      TableNeverStops(env, count, init);
      var before := Touched(NoTrees(count), TableTouches(env, count, init)).value;
      LiveGrows(init, e);
      assert es == init + [e];
      EntryRuns(before, env, count, e, init, es);
      TouchedAppend(NoTrees(count), TableTouches(env, count, init), EntryTouches(env, count, e));
    }
  }

  lemma NoneBound(count: nat)
    ensures AllSized(NoTrees<()>(count)) && BoundLive(NoTrees(count), [])
    ensures Touched(NoTrees(count), []) == Some(NoTrees(count))
  {
  }

  lemma EntryRuns(shapes: Shapes, env: Env, count: u16, e: TocEntry, init: seq<TocEntry>, es: seq<TocEntry>)
    requires |shapes| == count >= 1 && AllPacked(shapes) && AllSized(shapes) && BoundLive(shapes, init)
    requires es == init + [e] && DeadEntriesFirst(es)
    ensures Routed(count, EntryTouches(env, count, e))
    ensures var r := Touched(shapes, EntryTouches(env, count, e));
            r.Some? && AllPacked(r.value) && AllSized(r.value) && BoundLive(r.value, es)
  {
    hide Touched, AllPacked, AllSized, TreeGet;
    LiveGrows(init, e);
    WidenLive(shapes, init, es);
    if e.tombstone == 0 {
      EntryPuts(shapes, env, count, e.key, |e.chunkRefs|, es);
    } else {
      NoneLiveBefore(init, e);
      EntryRemoves(shapes, env, count, e.key, es);
    }
  }

  lemma NoneLiveBefore(init: seq<TocEntry>, e: TocEntry)
    requires DeadEntriesFirst(init + [e]) && e.tombstone != 0
    ensures !LiveIn(init, e.key)
  {
    var es := init + [e];
    forall i | 0 <= i < |init| && init[i].key == e.key ensures init[i].tombstone != 0 {
      assert es[i] == init[i] && es[|init|] == e;
    }
  }

  lemma WidenLive(shapes: Shapes, init: seq<TocEntry>, es: seq<TocEntry>)
    requires AllSized(shapes) && BoundLive(shapes, init) && forall k: Bytes :: LiveIn(init, k) ==> LiveIn(es, k)
    ensures BoundLive(shapes, es)
  {
  }
}

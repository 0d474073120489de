// Whole runs of inserts and removes: when they agree with a finite map, and which runs always do
// (crates/tpx-index/src/art.rs).

module ArtRuns {
  import opened Wrappers
  import opened Types
  import opened Art
  import opened ArtProofs
  import opened ArtMap

  type Tree<V> = Option<Node<V>>

  datatype Op<V> = Put(key: Bytes, value: V) | Del(key: Bytes)

  datatype Ran<V> = Stopped | Ran(tree: Tree<V>, answers: seq<Option<V>>)

  // ---------- the tree with its optional root ----------

  ghost predicate TreeSized<V>(t: Tree<V>) {
    t.Some? ==> Sized(t.value)
  }

  ghost predicate TreeOk<V>(t: Tree<V>) {
    t.Some? ==> WF(t.value, []) && Sized(t.value)
  }

  function TreeGet<V>(t: Tree<V>, key: Bytes): Option<V>
    requires TreeSized(t)
  {
    if t.None? then None else Lookup(t.value, key, 0)
  }

  function TreeInsert<V>(t: Tree<V>, key: Bytes, value: V): Inserted<V>
    requires TreeSized(t)
  {
    if t.None? then Inserted(Leaf(key, value), None) else Insert(t.value, key, value, 0)
  }

  /** A root leaf with the key empties the tree; no other root ever goes away. */
  function TreeRemove<V>(t: Tree<V>, key: Bytes): (Tree<V>, Option<V>)
    requires TreeSized(t)
  {
    if t.None? then (t, None)
    else if t.value.Leaf? then
      if t.value.key == key then (None, Some(t.value.value)) else (t, None)
    else
      var r := Remove(t.value, key, 0);
      (Some(r.0), r.1)
  }

  lemma TreeStaysSized<V>(t: Tree<V>, key: Bytes, value: Option<V>)
    requires TreeSized(t)
    ensures value.Some? ==> var r := TreeInsert(t, key, value.value); r.Inserted? ==> Sized(r.node)
    ensures TreeSized(TreeRemove(t, key).0)
  {
    if t.Some? {
      RemoveSized(t.value, key, 0);
      if value.Some? {
        InsertSized(t.value, key, value.value, 0);
      }
    }
  }

  function Step<V>(t: Tree<V>, op: Op<V>): (r: Ran<V>)
    requires TreeSized(t)
    ensures r.Ran? ==> TreeSized(r.tree) && |r.answers| == 1
  {
    match op
    case Put(key, value) =>
      TreeStaysSized(t, key, Some(value));
      var r := TreeInsert(t, key, value);
      if r.Panic? then Stopped else Ran(Some(r.node), [r.prev])
    case Del(key) =>
      TreeStaysSized(t, key, None);
      var r := TreeRemove(t, key);
      Ran(r.0, [r.1])
  }

  function Run<V>(t: Tree<V>, ops: seq<Op<V>>): (r: Ran<V>)
    requires TreeSized(t)
    ensures r.Ran? ==> TreeSized(r.tree)
    decreases |ops|
  {
    if ops == [] then Ran(t, [])
    else
      var first := Step(t, ops[0]);
      if first.Stopped? then Stopped
      else
        var rest := Run(first.tree, ops[1..]);
        if rest.Stopped? then Stopped else Ran(rest.tree, first.answers + rest.answers)
  }

  // ---------- the map it should be ----------

  function Bound<V>(m: map<Bytes, V>, key: Bytes): Option<V> {
    if key in m then Some(m[key]) else None
  }

  function MapStep<V>(m: map<Bytes, V>, op: Op<V>): map<Bytes, V> {
    match op
    case Put(key, value) => m[key := value]
    case Del(key) => m - {key}
  }

  function MapAfter<V>(m: map<Bytes, V>, ops: seq<Op<V>>): map<Bytes, V>
    decreases |ops|
  {
    if ops == [] then m else MapAfter(MapStep(m, ops[0]), ops[1..])
  }

  /** Each operation answers what the map bound its key to just before. */
  function MapAnswers<V>(m: map<Bytes, V>, ops: seq<Op<V>>): seq<Option<V>>
    decreases |ops|
  {
    if ops == [] then [] else [Bound(m, ops[0].key)] + MapAnswers(MapStep(m, ops[0]), ops[1..])
  }

  ghost predicate Agrees<V>(t: Tree<V>, m: map<Bytes, V>)
    requires TreeSized(t)
  {
    forall k: Bytes :: TreeGet(t, k) == Bound(m, k)
  }

  // ---------- runs that agree ----------

  /** No insert of the run takes a Node48 slot that is in use. */
  predicate RunSafe<V>(t: Tree<V>, ops: seq<Op<V>>)
    requires TreeSized(t)
    decreases |ops|
  {
    ops == [] ||
    (&& (ops[0].Put? && t.Some? ==> Safe(t.value, ops[0].key, 0))
     && var first := Step(t, ops[0]);
        first.Ran? ==> RunSafe(first.tree, ops[1..]))
  }

  /** One safe operation does to the tree what it does to the map, and gives the map's answer. */
  lemma StepAgrees<V>(t: Tree<V>, m: map<Bytes, V>, op: Op<V>)
    requires TreeSized(t) && TreeOk(t) && Agrees(t, m)
    requires op.Put? && t.Some? ==> Safe(t.value, op.key, 0)
    ensures var r := Step(t, op);
            && r.Ran? && TreeOk(r.tree) && Agrees(r.tree, MapStep(m, op)) && r.answers == [Bound(m, op.key)]
  {
    hide Insert, Remove, WF, Sized;
    var r := Step(t, op);
    assert TreeGet(t, op.key) == Bound(m, op.key);
    match op {
      case Put(key, value) =>
        if t.Some? {
          InsertRefines(t.value, [], key, value);
        } else {
          LeafWF(Leaf(key, value), []);
          LeafLookup(Leaf(key, value), key, 0);
        }
        forall k: Bytes ensures TreeGet(r.tree, k) == Bound(MapStep(m, op), k) {
          assert TreeGet(t, k) == Bound(m, k);
        }
      case Del(key) =>
        if t.Some? && !t.value.Leaf? {
          RemoveRefines(t.value, [], key);
        }
        forall k: Bytes ensures TreeGet(r.tree, k) == Bound(MapStep(m, op), k) {
          assert TreeGet(t, k) == Bound(m, k);
          assert [] <= k;
        }
    }
  }

  /** Every safe run: no stop, the map's answers, and afterwards the map's bindings for every key. */
  lemma {:induction false} RunsAreMaps<V>(t: Tree<V>, m: map<Bytes, V>, ops: seq<Op<V>>)
    requires TreeSized(t) && TreeOk(t) && Agrees(t, m) && RunSafe(t, ops)
    ensures var r := Run(t, ops);
            && r.Ran? && TreeOk(r.tree) && Agrees(r.tree, MapAfter(m, ops)) && r.answers == MapAnswers(m, ops)
    decreases |ops|
  {
    hide Step, Agrees, TreeOk, TreeSized, MapStep;
    if ops != [] {
      StepAgrees(t, m, ops[0]);
      RunsAreMaps(Step(t, ops[0]).tree, MapStep(m, ops[0]), ops[1..]);
    }
  }

  // ---------- runs without holes ----------

  /** Every Node48 uses exactly slots below its count. */
  ghost predicate Packed<V>(n: Node<V>)
    requires Local(n)
  {
    n.Node48? ==> n.numChildren <= 48 && forall b: u8 :: n.index[b] == NO_SLOT || (n.index[b] as nat) < n.numChildren
  }

  ghost predicate Dense<V>(n: Node<V>)
    decreases n
  {
    Local(n) && Packed(n) && (!n.Leaf? ==> forall b: u8 :: Child(n, b).Some? ==> Dense(Child(n, b).value))
  }

  lemma {:induction false} DenseSafe<V>(n: Node<V>, key: Bytes, depth: nat)
    requires Sized(n) && Dense(n)
    ensures Safe(n, key, depth)
    decreases n
  {
    if !n.Leaf? && depth < |key| && Child(n, key[depth]).Some? {
      DenseSafe(Child(n, key[depth]).value, key, depth + 1);
    }
  }

  lemma DenseIn<V>(n: Node<V>, m: Node<V>, c: Option<Node<V>>)
    requires Dense(n) && !n.Leaf? && !m.Leaf? && Local(m) && Packed(m) && ChildIn(n, m, c)
    requires c.Some? ==> Dense(c.value)
    ensures Dense(m)
  {
  }

  lemma SetChildPacked<V>(n: Node<V>, b: u8, c: Node<V>)
    requires Local(n) && Packed(n) && !n.Leaf? && HasByte(n, b)
    ensures Local(SetChild(n, b, c)) && Packed(SetChild(n, b, c))
  {
  }

  lemma {:induction false} GrownIndexPacked(keys: seq<u8>, n: nat, b: u8)
    requires n <= |keys| && n <= 48
    ensures GrownIndex(keys, n)[b] == NO_SLOT || (GrownIndex(keys, n)[b] as nat) < n
  {
    if n > 0 {
      GrownIndexPacked(keys, n - 1, b);
    }
  }

  lemma AddNewPacked<V>(n: Node<V>, b: u8, leaf: Node<V>)
    requires Local(n) && Packed(n) && !n.Leaf? && !HasByte(n, b)
    ensures Local(AddNew(n, b, leaf)) && Packed(AddNew(n, b, leaf))
  {
    AddNewIn(n, b, leaf);
    if n.Node16? {
      forall x: u8 ensures GrownIndex(n.keys, 16)[x] == NO_SLOT || (GrownIndex(n.keys, 16)[x] as nat) < 16 {
        GrownIndexPacked(n.keys, 16, x);
      }
    }
  }

  lemma {:induction false} SplitDense<V>(leaf: Node<V>, key: Bytes, value: V, depth: nat)
    requires leaf.Leaf? && leaf.key != key
    ensures Dense(Split(leaf, key, value, depth))
    decreases |key| - depth
  {
    var ob, nb := At(leaf.key, depth), At(key, depth);
    if ob == nb && ob.Some? {
      SplitDense(leaf, key, value, depth + 1);
    }
  }

  /** Inserting never opens a hole. */
  lemma {:induction false} InsertDense<V>(n: Node<V>, key: Bytes, value: V, depth: nat)
    requires Sized(n) && Dense(n)
    ensures var r := Insert(n, key, value, depth); r.Inserted? ==> Dense(r.node)
    decreases n
  {
    hide SetChild, AddNew, PutVal, ChildIn, Packed;
    if n.Leaf? {
      if n.key != key {
        SplitDense(n, key, value, depth);
      } else {
        LeafDense(Leaf(key, value));
      }
    } else if depth < |key| {
      var b := key[depth];
      if HasByte(n, b) {
        var c := Child(n, b);
        if c.Some? {
          InsertDense(c.value, key, value, depth + 1);
          var r := Insert(c.value, key, value, depth + 1);
          if r.Inserted? {
            SetChildIn(n, b, r.node);
            SetChildPacked(n, b, r.node);
            DenseIn(n, SetChild(n, b, r.node), Some(r.node));
          }
        }
      } else {
        AddNewIn(n, b, Leaf(key, value));
        AddNewPacked(n, b, Leaf(key, value));
        LeafDense(Leaf(key, value));
        DenseIn(n, AddNew(n, b, Leaf(key, value)), Some(Leaf(key, value)));
      }
    } else {
      PutValDense(n, Some(Stored(key, value)));
    }
  }

  lemma LeafDense<V>(leaf: Node<V>)
    requires leaf.Leaf?
    ensures Dense(leaf)
  {
  }

  lemma PutValDense<V>(n: Node<V>, v: Option<Stored<V>>)
    requires Dense(n) && !n.Leaf?
    ensures Dense(PutVal(n, v))
  {
    PutValKeeps(n, v);
    DenseIn(n, PutVal(n, v), None);
  }

  /** Removing `key` takes no Node48 slot but the last one in use. */
  predicate LastSlot<V>(n: Node<V>, key: Bytes, depth: nat)
    requires Sized(n)
    decreases n
  {
    n.Leaf? || depth >= |key| ||
    var c := Child(n, key[depth]);
    c.None? || if c.value.Leaf? then c.value.key == key && n.Node48? ==> n.index[key[depth]] as nat == n.numChildren - 1
               else LastSlot(c.value, key, depth + 1)
  }

  lemma DropPacked<V>(n: Node<V>, b: u8)
    requires ShapeOk(n) && Packed(n) && !n.Leaf? && HasByte(n, b)
    requires n.Node48? ==> n.index[b] as nat == n.numChildren - 1
    ensures Local(DropChild(n, b)) && Packed(DropChild(n, b))
  {
    DropChildIn(n, b);
  }

  lemma {:induction false} RemoveDense<V>(n: Node<V>, path: Bytes, key: Bytes)
    requires Sized(n) && WF(n, path) && Dense(n) && LastSlot(n, key, |path|)
    ensures Dense(Remove(n, key, |path|).0)
    decreases n
  {
    hide SetChild, DropChild, PutVal, ChildIn, Packed;
    var depth := |path|;
    if !n.Leaf? && depth < |key| && Child(n, key[depth]).Some? {
      var b, c := key[depth], Child(n, key[depth]).value;
      if c.Leaf? && c.key == key {
        DropChildIn(n, b);
        DropPacked(n, b);
        DenseIn(n, DropChild(n, b), None);
      } else {
        if !c.Leaf? {
          RemoveDense(c, path + [b], key);
        }
        var r := Remove(c, key, depth + 1).0;
        SetChildIn(n, b, r);
        SetChildPacked(n, b, r);
        DenseIn(n, SetChild(n, b, r), Some(r));
      }
    } else if !n.Leaf? && depth >= |key| {
      PutValDense(n, None);
    }
  }

  /** Every remove of the run takes the last slot wherever it empties a Node48 slot. */
  predicate HoleFree<V>(t: Tree<V>, ops: seq<Op<V>>)
    requires TreeSized(t)
    decreases |ops|
  {
    ops == [] ||
    (&& (ops[0].Del? && t.Some? ==> LastSlot(t.value, ops[0].key, 0))
     && var first := Step(t, ops[0]);
        first.Ran? ==> HoleFree(first.tree, ops[1..]))
  }

  lemma StepDense<V>(t: Tree<V>, op: Op<V>)
    requires TreeSized(t) && TreeOk(t) && (t.Some? ==> Dense(t.value))
    requires op.Del? && t.Some? ==> LastSlot(t.value, op.key, 0)
    ensures op.Put? && t.Some? ==> Safe(t.value, op.key, 0)
    ensures var r := Step(t, op); r.Ran? ==> TreeOk(r.tree) && (r.tree.Some? ==> Dense(r.tree.value))
  {
    hide Insert, Remove, WF, Sized, Dense, Refines;
    match op {
      case Put(key, value) =>
        if t.Some? {
          DenseSafe(t.value, key, 0);
          InsertDense(t.value, key, value, 0);
          InsertRefines(t.value, [], key, value);
        } else {
          LeafDense(Leaf(key, value));
          LeafWF(Leaf(key, value), []);
          LeafLookup(Leaf(key, value), key, 0);
        }
      case Del(key) =>
        if t.Some? && !t.value.Leaf? {
          RemoveDense(t.value, [], key);
          RemoveRefines(t.value, [], key);
        }
    }
  }

  /** A run that opens no hole is safe, from any tree without holes. */
  lemma {:induction false} HoleFreeIsSafe<V>(t: Tree<V>, ops: seq<Op<V>>)
    requires TreeSized(t) && TreeOk(t) && (t.Some? ==> Dense(t.value)) && HoleFree(t, ops)
    ensures RunSafe(t, ops)
    decreases |ops|
  {
    hide Step, TreeOk, TreeSized, Dense, Safe, LastSlot;
    if ops != [] {
      StepDense(t, ops[0]);
      if Step(t, ops[0]).Ran? {
        HoleFreeIsSafe(Step(t, ops[0]).tree, ops[1..]);
      }
    }
  }

  lemma {:induction false} PutsHoleFree<V>(t: Tree<V>, ops: seq<Op<V>>)
    requires TreeSized(t) && forall op :: op in ops ==> op.Put?
    ensures HoleFree(t, ops)
    decreases |ops|
  {
    if ops != [] && Step(t, ops[0]).Ran? {
      PutsHoleFree(Step(t, ops[0]).tree, ops[1..]);
    }
  }

  /** Without removes the tree is a map, whatever the keys: nothing to check. */
  lemma PutsAreMaps<V>(ops: seq<Op<V>>)
    requires forall op :: op in ops ==> op.Put?
    ensures var r := Run(None, ops);
            && r.Ran? && TreeOk(r.tree) && Agrees(r.tree, MapAfter(map[], ops)) && r.answers == MapAnswers(map[], ops)
  {
    PutsHoleFree<V>(None, ops);
    HoleFreeIsSafe<V>(None, ops);
    RunsAreMaps<V>(None, map[], ops);
  }
}

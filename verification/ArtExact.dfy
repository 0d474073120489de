// The other half of the run condition: an insert into a used Node48 slot is found out at once or by one
// or two operations on the byte that shares the slot (crates/tpx-index/src/art.rs:298-313, 592-598).

module ArtExact {
  import opened Wrappers
  import opened Types
  import opened Art
  import opened ArtProofs
  import opened ArtMap
  import opened ArtRuns
  import opened ArtHole

  /** The key that ends in the byte sharing the slot, where `key` goes through its own byte. */
  function Sibling(key: Bytes, at: nat, x: u8): Bytes
    requires at < |key|
  {
    key[..at] + [x]
  }

  /**
   * After `key` has taken a used slot, the sibling under byte `x` is stored in the same subtree:
   * the key ending at the new byte answers with the sibling's value, and removing the sibling takes
   * that value away again.
   */
  ghost predicate Exposed<V>(n: Node<V>, key: Bytes, value: V, depth: nat, at: nat, x: u8)
    requires Sized(n)
  {
    depth <= at < |key| && x != key[at]
    && var r := Insert(n, key, value, depth);
       r.Inserted? && Sized(r.node) && Safe(r.node, Sibling(key, at, x), depth)
       && var r2 := Insert(r.node, Sibling(key, at, x), value, depth);
          r2.Inserted? && Sized(r2.node) && !r2.node.Leaf?
          && (|key| > at + 1 ==> Lookup(n, key[..at + 1], depth).None? && Lookup(r2.node, key[..at + 1], depth).Some?)
          && (|key| == at + 1 ==>
                var r3 := Remove(r2.node, Sibling(key, at, x), depth).0;
                Sized(r3) && Lookup(r3, key, depth).None?)
  }

  /** The Node4 that splitting the new leaf leaves in the shared slot: the sibling is its own value. */
  lemma SharedSplit<V>(key: Bytes, value: V, at: nat, x: u8)
    requires at < |key| && x != key[at]
    ensures var leaf, s := Leaf(key, value), Sibling(key, at, x);
            s != key
            && var m := Split(leaf, s, value, at + 1);
               m.Node4? && Sized(m) && m.val == Some(Stored(s, value))
  {
    var leaf, s := Leaf(key, value), Sibling(key, at, x);
    assert s[at] == x;
    SplitSized(leaf, s, value, at + 1);
  }

  lemma SharedSlot<V>(n: Node<V>, key: Bytes, value: V, at: nat, x: u8)
    requires ShapeOk(n) && Sized(n) && n.Node48? && n.numChildren < 48 && at < |key|
    requires !HasByte(n, key[at]) && n.index[x] == n.numChildren as u8
    ensures Exposed(n, key, value, at, at, x)
  {
    hide Split;
    var b, s, leaf := key[at], Sibling(key, at, x), Leaf(key, value);
    var r := Insert(n, key, value, at).node;
    InsertSized(n, key, value, at);
    assert r == AddNew(n, b, leaf);
    assert Child(r, x) == Some(leaf) && s[at] == x;
    SharedSplit(key, value, at, x);
    var m := Split(leaf, s, value, at + 1);
    assert Insert(leaf, s, value, at + 1) == Inserted(m, None);
    assert HasByte(r, x) && Insert(r, s, value, at) == Inserted(SetChild(r, x, m), None);
    assert Safe(leaf, s, at + 1) && Safe(r, s, at);
    var r2 := SetChild(r, x, m);
    InsertSized(r, s, value, at);
    assert Child(r2, b) == Some(m) && Child(r2, x) == Some(m);
    if |key| == at + 1 {
      RemoveSized(r2, s, at);
      var m' := Remove(m, s, at + 1).0;
      assert m' == PutVal(m, None);
      var r3 := Remove(r2, s, at).0;
      assert r3 == SetChild(r2, x, m');
      assert Child(r3, b) == Some(m') && Sized(r3) && Sized(m');
      assert Lookup(m', key, at + 1).None?;
      assert Lookup(r3, key, at) == Lookup(m', key, at + 1);
    } else {
      var q := key[..at + 1];
      assert q[at] == b && |q| == at + 1;
      NoByteNoChild(n, b);
      assert Lookup(n, q, at).None?;
      assert Lookup(m, q, at + 1) == Some(value);
      assert Lookup(r2, q, at) == Lookup(m, q, at + 1);
    }
  }

  lemma ExposedBelow<V>(n: Node<V>, path: Bytes, key: Bytes, value: V, at: nat, x: u8)
    requires WF(n, path) && Sized(n) && !n.Leaf? && path <= key && |path| < |key|
    requires HasByte(n, key[|path|]) && Child(n, key[|path|]).Some?
    requires Exposed(Child(n, key[|path|]).value, key, value, |path| + 1, at, x)
    ensures Exposed(n, key, value, |path|, at, x)
  {
    hide SetChild, HasByte, Child, ShapeOk, Local;
    var d := |path|;
    var b, s := key[d], Sibling(key, at, x);
    var c := Child(n, b).value;
    assert s[d] == b && key[..at + 1][d] == b;
    WFShape(n, path);
    var r := Insert(c, key, value, d + 1).node;
    var n1 := SetChild(n, b, r);
    SetChildAt(n, b, r);
    InsertSized(n, key, value, d);
    var r2 := Insert(r, s, value, d + 1).node;
    var n2 := SetChild(n1, b, r2);
    assert HasByte(n1, b) by { ChildUsed(n1, b); }
    SetChildAt(n1, b, r2);
    InsertSized(n1, s, value, d);
    assert Insert(n, key, value, d).node == n1 && Insert(n1, s, value, d) == Inserted(n2, Insert(r, s, value, d + 1).prev);
    if |key| == at + 1 {
      var r3 := Remove(r2, s, d + 1).0;
      assert HasByte(n2, b) by { ChildUsed(n2, b); }
      SetChildAt(n2, b, r3);
      RemoveSized(n2, s, d);
      assert Remove(n2, s, d).0 == SetChild(n2, b, r3);
    }
  }

  lemma ChildUsed<V>(n: Node<V>, b: u8)
    requires Local(n) && !n.Leaf? && Child(n, b).Some?
    ensures HasByte(n, b)
  {
  }

  /** An unsafe insert always leaves such a pair of bytes behind. */
  lemma {:induction false} UnsafeExposes<V>(n: Node<V>, path: Bytes, key: Bytes, value: V) returns (at: nat, x: u8)
    requires WF(n, path) && Sized(n) && path <= key && !Safe(n, key, |path|)
    ensures Exposed(n, key, value, |path|, at, x)
    decreases n
  {
    var d := |path|;
    WFShape(n, path);
    if HasByte(n, key[d]) {
      var c := Child(n, key[d]).value;
      PathStep(path, key);
      hide Exposed, HasByte, Child, Local, ShapeOk;
      at, x := UnsafeExposes(c, path + [key[d]], key, value);
      ExposedBelow(n, path, key, value, at, x);
    } else {
      at := d;
      x :| n.index[x] == n.numChildren as u8;
      SharedSlot(n, key, value, at, x);
    }
  }

  /** What the run shows: the sibling put, and removed again when `key` ends at the shared byte. */
  function Probe<V>(key: Bytes, value: V, at: nat, x: u8): seq<Op<V>>
    requires at < |key|
  {
    var s := Sibling(key, at, x);
    if |key| > at + 1 then [Put(s, value)] else [Put(s, value), Del(s)]
  }

  /** The tree after an unsafe put and that continuation disagrees with the map. */
  lemma ExposedDisagrees<V>(n: Node<V>, m: map<Bytes, V>, key: Bytes, value: V, at: nat, x: u8)
    requires Sized(n) && Agrees(Some(n), m) && Exposed(n, key, value, 0, at, x)
    ensures var t := Step(Some(n), Put(key, value));
            t.Ran? && RunSafe(t.tree, Probe(key, value, at, x))
            && var r := Run(t.tree, Probe(key, value, at, x));
               r.Ran? && !Agrees(r.tree, MapAfter(m[key := value], Probe(key, value, at, x)))
  {
    hide Insert, Remove, Lookup, Safe, Sized;
    var s := Sibling(key, at, x);
    assert s[at] == x;
    var put, del: Op<V> := Put(s, value), Del(s);
    var t := Step(Some(n), Put(key, value)).tree;
    var t2 := Step(t, put).tree;
    assert [put][1..] == [] && [put, del][1..] == [del] && [del][1..] == [];
    if |key| > at + 1 {
      var q := key[..at + 1];
      assert q[at] == key[at] && |q| == at + 1;
      assert TreeGet(Some(n), q) == Bound(m, q);
      assert MapAfter(m[key := value], [put]) == m[key := value][s := value];
      OneStep(t, put);
      assert RunSafe(t2, []);
      assert RunSafe(t, [put]);
      assert TreeGet(t2, q) != Bound(MapAfter(m[key := value], [put]), q);
    } else {
      OneStep(t2, del);
      var t3 := Step(t2, del).tree;
      assert RunSafe(t3, []);
      assert RunSafe(t2, [del]);
      assert RunSafe(t, [put, del]);
      assert MapAfter(m[key := value], [put, del]) == MapAfter(m[key := value][s := value], [del]);
      assert MapAfter(m[key := value][s := value], [del]) == MapAfter(m[key := value][s := value] - {s}, []);
      assert Run(t2, [del]).tree == t3;
      assert MapAfter(m[key := value], [put, del]) == m[key := value][s := value] - {s};
      assert TreeGet(t3, key) != Bound(MapAfter(m[key := value], [put, del]), key);
    }
  }

  /**
   * A put is safe if and only if everything that can safely follow it agrees with the map: a slot in
   * use, once taken, is found out by the continuation above even if it held no key.
   */
  lemma SafeIsExact<V(!new)>(t: Tree<V>, m: map<Bytes, V>, key: Bytes, value: V)
    requires TreeSized(t) && TreeOk(t) && Agrees(t, m)
    ensures var after := Step(t, Put(key, value));
            after.Ran?
            && ((t.Some? ==> Safe(t.value, key, 0))
                <==> forall c: seq<Op<V>> :: RunSafe(after.tree, c) ==>
                       Run(after.tree, c).Ran? && Agrees(Run(after.tree, c).tree, MapAfter(m[key := value], c)))
  {
    hide Step, Run, RunSafe, MapAfter, Agrees, Safe, Exposed, Probe;
    PutRuns(t, key, value);
    var after := Step(t, Put(key, value));
    if t.Some? ==> Safe(t.value, key, 0) {
      StepAgrees(t, m, Put(key, value));
      forall c: seq<Op<V>> | RunSafe(after.tree, c)
        ensures Run(after.tree, c).Ran? && Agrees(Run(after.tree, c).tree, MapAfter(m[key := value], c))
      {
        RunsAreMaps(after.tree, m[key := value], c);
      }
    } else {
      var at, x := UnsafeExposes(t.value, [], key, value);
      assert at < |key| by { ExposedWithin(t.value, key, value, at, x); }
      ExposedDisagrees(t.value, m, key, value, at, x);
    }
  }

  lemma ExposedWithin<V>(n: Node<V>, key: Bytes, value: V, at: nat, x: u8)
    requires Sized(n) && Exposed(n, key, value, 0, at, x)
    ensures at < |key|
  {
  }

  /** On a well-formed tree a put never stops. */
  lemma PutRuns<V>(t: Tree<V>, key: Bytes, value: V)
    requires TreeSized(t) && TreeOk(t)
    ensures Step(t, Put(key, value)).Ran?
  {
    if t.Some? {
      InsertExact(t.value, [], key, value);
    }
  }

  /** A run that is not safe, cut behind its first unsafe put and continued, disagrees with the map. */
  lemma {:induction false} UnsafeRunDisagrees<V>(t: Tree<V>, m: map<Bytes, V>, ops: seq<Op<V>>) returns (i: nat, c: seq<Op<V>>)
    requires TreeSized(t) && TreeOk(t) && Agrees(t, m) && !RunSafe(t, ops)
    ensures i < |ops| && ops[i].Put? && |c| <= 2 && RunSafe(t, ops[..i])
    ensures var r := Run(t, ops[..i + 1] + c);
            r.Ran? && !Agrees(r.tree, MapAfter(m, ops[..i + 1] + c))
    decreases |ops|
  {
    hide Agrees, Safe, Exposed, Step, WF, Sized;
    if ops[0].Put? && t.Some? && !Safe(t.value, ops[0].key, 0) {
      i := 0;
      var at, x := UnsafeExposes(t.value, [], ops[0].key, ops[0].value);
      assert at < |ops[0].key| by { ExposedWithin(t.value, ops[0].key, ops[0].value, at, x); }
      ExposedDisagrees(t.value, m, ops[0].key, ops[0].value, at, x);
      c := Probe(ops[0].key, ops[0].value, at, x);
      assert ops[..0] == [];
      FirstThen(t, m, ops[0], c);
      assert ops[..1] + c == [ops[0]] + c;
    } else {
      StepAgrees(t, m, ops[0]);
      var j;
      j, c := UnsafeRunDisagrees(Step(t, ops[0]).tree, MapStep(m, ops[0]), ops[1..]);
      i := j + 1;
      assert ops[..i] == [ops[0]] + ops[1..][..j] && ops[..i][1..] == ops[1..][..j];
      FirstThen(t, m, ops[0], ops[1..][..j + 1] + c);
      assert ops[..i + 1] + c == [ops[0]] + (ops[1..][..j + 1] + c);
    }
  }

  lemma FirstThen<V>(t: Tree<V>, m: map<Bytes, V>, op: Op<V>, rest: seq<Op<V>>)
    requires TreeSized(t) && Step(t, op).Ran?
    ensures Run(Step(t, op).tree, rest).Ran? ==>
              Run(t, [op] + rest).Ran? && Run(t, [op] + rest).tree == Run(Step(t, op).tree, rest).tree
    ensures MapAfter(m, [op] + rest) == MapAfter(MapStep(m, op), rest)
  {
    hide Step;
    assert ([op] + rest)[1..] == rest;
  }
}

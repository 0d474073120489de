// A tree without its values. Which inserts stop, and what becomes of the nodes, depends on the keys
// alone (crates/tpx-index/src/art.rs).

module ArtShape {
  import opened Wrappers
  import opened Types
  import opened Art
  import opened ArtProofs
  import opened ArtRuns

  function ShapeVal<V>(v: Option<Stored<V>>): Option<Stored<()>> {
    if v.Some? then Some(Stored(v.value.key, ())) else None
  }

  function Shape<V>(n: Node<V>): (s: Node<()>)
    ensures s.Leaf? == n.Leaf?
    decreases n, 1
  {
    match n
    case Leaf(key, _) => Leaf(key, ())
    case Node4(keys, children, num, val) => Node4(keys, ShapeAll(n), num, ShapeVal(val))
    case Node16(keys, children, num, val) => Node16(keys, ShapeAll(n), num, ShapeVal(val))
    case Node48(index, children, num, val) => Node48(index, ShapeAll(n), num, ShapeVal(val))
    case Node256(children, num, val) => Node256(ShapeAll(n), num, ShapeVal(val))
  }

  function ShapeAll<V>(n: Node<V>): (cs: seq<Option<Node<()>>>)
    requires !n.Leaf?
    ensures |cs| == |n.children|
    ensures forall i :: 0 <= i < |cs| ==> cs[i].Some? == n.children[i].Some?
    decreases n, 0
  {
    seq(|n.children|, i requires 0 <= i < |n.children| =>
      if n.children[i].Some? then Some(Shape(n.children[i].value)) else None)
  }

  function ShapeOf<V>(t: Option<Node<V>>): Option<Node<()>> {
    if t.Some? then Some(Shape(t.value)) else None
  }

  lemma ShapeAllAt<V>(n: Node<V>, i: nat)
    requires !n.Leaf? && i < |n.children|
    ensures ShapeAll(n)[i] == ShapeOf(n.children[i])
  {
  }

  // ---------- one node ----------

  lemma ShapeLocal<V>(n: Node<V>)
    ensures Local(Shape(n)) == Local(n)
  {
    hide FindFrom;
    if n.Node4? || n.Node16? {
      var cs := ShapeAll(n);
      assert forall i :: 0 <= i < |cs| ==> cs[i].Some? == n.children[i].Some?;
    }
  }

  lemma ShapeChild<V>(n: Node<V>, b: u8)
    requires Local(n) && !n.Leaf?
    ensures Local(Shape(n)) && HasByte(Shape(n), b) == HasByte(n, b) && Child(Shape(n), b) == ShapeOf(Child(n, b))
  {
    ShapeLocal(n);
  }

  lemma ShapePutVal<V>(n: Node<V>, v: Option<Stored<V>>)
    requires !n.Leaf?
    ensures Shape(PutVal(n, v)) == PutVal(Shape(n), ShapeVal(v))
  {
    assert ShapeAll(PutVal(n, v)) == ShapeAll(n);
  }

  lemma ShapeSetChild<V>(n: Node<V>, b: u8, c: Node<V>)
    requires Local(n) && !n.Leaf? && HasByte(n, b)
    ensures Local(Shape(n)) && HasByte(Shape(n), b)
    ensures Shape(SetChild(n, b, c)) == SetChild(Shape(n), b, Shape(c))
  {
    ShapeChild(n, b);
    var m := SetChild(n, b, c);
    forall i | 0 <= i < |m.children| ensures ShapeAll(m)[i] == SetChild(Shape(n), b, Shape(c)).children[i] {
      ShapeAllAt(m, i);
      ShapeAllAt(n, i);
    }
    assert ShapeAll(m) == SetChild(Shape(n), b, Shape(c)).children;
  }

  lemma {:induction false} ShapeGrown<V>(n: Node<V>, k: nat)
    requires n.Node48? && Local(n) && k <= 256
    ensures Local(Shape(n))
    ensures forall i :: 0 <= i < 256 ==>
              GrownChildren(n.index, ShapeAll(n), k)[i] == ShapeOf(GrownChildren(n.index, n.children, k)[i])
  {
    ShapeLocal(n);
    if k > 0 {
      ShapeGrown(n, k - 1);
      assert n.index[k - 1] == n.index[(k - 1) as u8];
    }
  }

  lemma ShapeAddNew<V>(n: Node<V>, b: u8, leaf: Node<V>)
    requires Local(n) && !n.Leaf? && !HasByte(n, b)
    ensures Local(Shape(n)) && !HasByte(Shape(n), b)
    ensures Shape(AddNew(n, b, leaf)) == AddNew(Shape(n), b, Shape(leaf))
  {
    ShapeChild(n, b);
    var m, s := AddNew(n, b, leaf), AddNew(Shape(n), b, Shape(leaf));
    if n.Node48? && n.numChildren >= 48 {
      ShapeGrown(n, 256);
    }
    forall i | 0 <= i < |m.children| ensures ShapeAll(m)[i] == s.children[i] {
      ShapeAllAt(m, i);
      if i < |n.children| {
        ShapeAllAt(n, i);
      }
    }
    assert ShapeAll(m) == s.children;
  }

  lemma ShapeShift<V>(cs: seq<Option<Node<V>>>, ss: seq<Option<Node<()>>>, n: nat, i: nat, j: nat)
    requires i < n <= |cs| == |ss| && j < |cs| && forall k :: 0 <= k < |cs| ==> ss[k] == ShapeOf(cs[k])
    ensures ShiftChildren(ss, n, i)[j] == ShapeOf(ShiftChildren(cs, n, i)[j])
  {
    hide Shape;
    assert ShiftChildren(cs, n, i)[j] == if j < i then cs[j] else if j < n - 1 then cs[j + 1] else if j == n - 1 then None else cs[j];
    assert ShiftChildren(ss, n, i)[j] == if j < i then ss[j] else if j < n - 1 then ss[j + 1] else if j == n - 1 then None else ss[j];
  }

  lemma ShapeChildren<V>(n: Node<V>)
    requires !n.Leaf?
    ensures Shape(n).children == ShapeAll(n) && forall i :: 0 <= i < |n.children| ==> ShapeAll(n)[i] == ShapeOf(n.children[i])
  {
  }

  lemma ShapeDrop<V>(n: Node<V>, b: u8)
    requires Local(n) && !n.Leaf? && HasByte(n, b)
    ensures Local(Shape(n)) && HasByte(Shape(n), b)
    ensures Shape(DropChild(n, b)) == DropChild(Shape(n), b)
  {
    ShapeChild(n, b);
    var m, s := DropChild(n, b), DropChild(Shape(n), b);
    DropChildIn(n, b);
    DropChildIn(Shape(n), b);
    forall i | 0 <= i < |m.children| ensures ShapeAll(m)[i] == s.children[i] {
      hide Shape, ShapeAll, HasByte, Child, Local, ChildIn, ShapeOf;
      ShapeChildren(m);
      ShapeChildren(n);
      DropShift(n, b, m, i);
    }
    assert ShapeAll(m) == s.children;
  }

  lemma DropShift<V>(n: Node<V>, b: u8, m: Node<V>, i: nat)
    requires Local(n) && !n.Leaf? && HasByte(n, b) && m == DropChild(n, b) && i < |n.children|
    requires Local(Shape(n)) && HasByte(Shape(n), b)
    ensures !m.Leaf? && |m.children| == |n.children| == |DropChild(Shape(n), b).children|
    ensures DropChild(Shape(n), b).children[i] == ShapeOf(m.children[i])
  {
    ShapeChildren(n);
    if n.Node4? || n.Node16? {
      hide FindByte, ShiftChildren, ShiftKeys, LinearOk;
      ShapeShift(n.children, ShapeAll(n), n.numChildren, FindByte(n.keys, n.numChildren, b).value, i);
    }
  }

  lemma ShapeAddChild4<V>(n: Node<V>, b: u8, c: Node<V>)
    requires Local(n) && n.Node4?
    ensures Local(Shape(n)) && Shape(AddChild4(n, b, c)) == AddChild4(Shape(n), b, Shape(c))
  {
    ShapeLocal(n);
    var m, s := AddChild4(n, b, c), AddChild4(Shape(n), b, Shape(c));
    forall i | 0 <= i < 4 ensures ShapeAll(m)[i] == s.children[i] {
      ShapeAllAt(m, i);
      ShapeAllAt(n, i);
    }
    assert ShapeAll(m) == s.children;
  }

  lemma ShapeBlank<V>()
    ensures Local(Blank4<V>()) && Shape(Blank4<V>()) == Blank4<()>()
  {
    assert ShapeAll(Blank4<V>()) == Blank4<()>().children;
  }

  // ---------- whole trees ----------

  lemma {:induction false} ShapeSized<V>(n: Node<V>)
    requires Sized(n)
    ensures Sized(Shape(n))
    decreases n
  {
    ShapeLocal(n);
    if !n.Leaf? {
      forall b: u8 | Child(Shape(n), b).Some? ensures Sized(Child(Shape(n), b).value) {
        ShapeChild(n, b);
        ShapeSized(Child(n, b).value);
      }
    }
  }

  lemma {:induction false} ShapeSplit<V>(leaf: Node<V>, key: Bytes, value: V, depth: nat)
    requires leaf.Leaf? && leaf.key != key
    ensures Shape(Split(leaf, key, value, depth)) == Split(Shape(leaf), key, (), depth)
    decreases |key| - depth
  {
    hide AddChild4, Blank4, Shape;
    assert Shape(leaf) == Leaf(leaf.key, ()) && Shape(Leaf(key, value)) == Leaf(key, ()) by {
      ShapeLeaf(leaf);
      ShapeLeaf(Leaf(key, value));
    }
    var ob, nb := At(leaf.key, depth), At(key, depth);
    ShapeBlank<V>();
    BlankIsNode4<V>();
    BlankIsNode4<()>();
    if ob == nb && ob.Some? {
      ShapeSplit(leaf, key, value, depth + 1);
      ShapeAddChild4(Blank4<V>(), ob.value, Split(leaf, key, value, depth + 1));
    } else {
      SplitLast(leaf, key, value, depth);
    }
  }

  lemma ShapeLeaf<V>(leaf: Node<V>)
    requires leaf.Leaf?
    ensures Shape(leaf) == Leaf(leaf.key, ())
  {
  }

  lemma BlankIsNode4<V>()
    ensures Blank4<V>().Node4? && Blank4<V>().numChildren == 0
  {
  }

  lemma SplitLast<V>(leaf: Node<V>, key: Bytes, value: V, depth: nat)
    requires leaf.Leaf? && leaf.key != key && !(At(leaf.key, depth) == At(key, depth) && At(key, depth).Some?)
    ensures Shape(Split(leaf, key, value, depth)) == Split(Shape(leaf), key, (), depth)
  {
    hide Shape;
    var ob, nb := At(leaf.key, depth), At(key, depth);
    var blank, added := Blank4<V>(), Leaf(key, value);
    ShapeBlank<V>();
    ShapeLeaf(leaf);
    ShapeLeaf(added);
    var n := if ob.Some? then AddChild4(blank, ob.value, leaf) else WithVal(blank, leaf.key, leaf.value);
    ShapeAddChild4(blank, if ob.Some? then ob.value else 0, leaf);
    ShapePutVal(blank, Some(Stored(leaf.key, leaf.value)));
    assert n.Node4? && Local(n);
    ShapeAddChild4(n, if nb.Some? then nb.value else 0, added);
    ShapePutVal(n, Some(Stored(key, value)));
  }

  /** Inserting stops, and rearranges nodes, without looking at values. */
  lemma {:induction false} ShapeInsert<V>(n: Node<V>, key: Bytes, value: V, depth: nat)
    requires Sized(n)
    ensures Sized(Shape(n))
    ensures var (r, s) := (Insert(n, key, value, depth), Insert(Shape(n), key, (), depth));
            r.Panic? == s.Panic? && (r.Inserted? ==> s.node == Shape(r.node))
    decreases n
  {
    hide SetChild, AddNew, PutVal, Split, Shape, HasByte, Child;
    ShapeSized(n);
    if n.Leaf? {
      ShapeLeaf(n);
      ShapeLeaf(Leaf(key, value));
      if n.key != key {
        ShapeSplit(n, key, value, depth);
      }
    } else if depth >= |key| {
      ShapePutVal(n, Some(Stored(key, value)));
    } else {
      var b := key[depth];
      ShapeChild(n, b);
      if HasByte(n, b) {
        var c := Child(n, b);
        if c.Some? {
          ShapeInsert(c.value, key, value, depth + 1);
          var r := Insert(c.value, key, value, depth + 1);
          if r.Inserted? {
            ShapeSetChild(n, b, r.node);
          }
        }
      } else {
        ShapeLeaf(Leaf(key, value));
        ShapeAddNew(n, b, Leaf(key, value));
      }
    }
  }

  lemma {:induction false} ShapeRemove<V>(n: Node<V>, key: Bytes, depth: nat)
    requires Sized(n)
    ensures Sized(Shape(n)) && Remove(Shape(n), key, depth).0 == Shape(Remove(n, key, depth).0)
    decreases n
  {
    hide SetChild, DropChild, PutVal, Shape, HasByte, Child;
    ShapeSized(n);
    if n.Leaf? {
    } else if depth >= |key| {
      ShapePutVal(n, None);
    } else {
      var b := key[depth];
      ShapeChild(n, b);
      var c := Child(n, b);
      if c.Some? {
        if c.value.Leaf? {
          ShapeLeaf(c.value);
        }
        if c.value.Leaf? && c.value.key == key {
          ShapeDrop(n, b);
        } else {
          ShapeRemove(c.value, key, depth + 1);
          ShapeSetChild(n, b, Remove(c.value, key, depth + 1).0);
        }
      }
    }
  }

  function OpShape<V>(op: Op<V>): Op<()> {
    match op
    case Put(key, _) => Put(key, ())
    case Del(key) => Del(key)
  }

  function OpShapes<V>(ops: seq<Op<V>>): (shapes: seq<Op<()>>)
    ensures |shapes| == |ops|
  {
    seq(|ops|, i requires 0 <= i < |ops| => OpShape(ops[i]))
  }

  /** One operation on a tree and on its shape: both stop or neither, and the shapes stay alike. */
  lemma ShapeStep<V>(t: Tree<V>, op: Op<V>)
    requires TreeSized(t)
    ensures TreeSized(ShapeOf(t))
    ensures var (r, s) := (Step(t, op), Step(ShapeOf(t), OpShape(op)));
            r.Stopped? == s.Stopped? && (r.Ran? ==> s.tree == ShapeOf(r.tree))
  {
    hide Insert, Remove, Shape, Sized;
    if t.Some? {
      ShapeSized(t.value);
      match op
      case Put(key, value) => ShapeInsert(t.value, key, value, 0);
      case Del(key) =>
        if t.value.Leaf? {
          ShapeLeaf(t.value);
        } else {
          ShapeRemove(t.value, key, 0);
        }
    } else if op.Put? {
      ShapeLeaf(Leaf(op.key, op.value));
    }
  }

  /** Whole runs: whether a tree stops depends on its keys and their order only. */
  lemma {:induction false} ShapeRun<V>(t: Tree<V>, ops: seq<Op<V>>)
    requires TreeSized(t)
    ensures TreeSized(ShapeOf(t))
    ensures var (r, s) := (Run(t, ops), Run(ShapeOf(t), OpShapes(ops)));
            r.Stopped? == s.Stopped? && (r.Ran? ==> s.tree == ShapeOf(r.tree))
    decreases |ops|
  {
    hide Step, ShapeOf, TreeSized;
    if ops == [] {
      assert TreeSized(ShapeOf(t)) by { TreeShapeSized(t); }
    } else {
      ShapeStep(t, ops[0]);
      assert OpShapes(ops)[1..] == OpShapes(ops[1..]);
      if Step(t, ops[0]).Ran? {
        ShapeRun(Step(t, ops[0]).tree, ops[1..]);
      }
    }
  }

  lemma TreeShapeSized<V>(t: Tree<V>)
    requires TreeSized(t)
    ensures TreeSized(ShapeOf(t))
  {
    if t.Some? {
      ShapeSized(t.value);
    }
  }
}

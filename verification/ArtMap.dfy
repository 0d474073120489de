// The tree against a finite map: what one insert or one remove keeps (crates/tpx-index/src/art.rs).

module ArtMap {
  import opened Wrappers
  import opened Types
  import opened Art
  import opened ArtProofs

  // ---------- one insert ----------

  /** A changed child answers for the whole node: the node refines exactly when the child does. */
  lemma SetChildRefines<V>(n: Node<V>, m: Node<V>, path: Bytes, b: u8, c: Node<V>, d: Node<V>, key: Bytes, value: Option<V>)
    requires Sized(n) && Sized(m) && Sized(c) && Sized(d) && !n.Leaf? && !m.Leaf?
    requires Child(n, b) == Some(c) && ChildAt(n, m, b, Some(d)) && path + [b] <= key
    ensures Refines(n, m, path, key, value) <==> Refines(c, d, path + [b], key, value)
  {
    hide Lookup, ChildAt, Child, Local, Sized;
    forall k: Bytes | path <= k
      ensures !(path + [b] <= k) ==> k != key && Lookup(m, k, |path|) == Lookup(n, k, |path|)
      ensures path + [b] <= k ==> Lookup(m, k, |path|) == Lookup(d, k, |path + [b]|)
                                  && Lookup(n, k, |path|) == Lookup(c, k, |path + [b]|)
    {
      LookupChanged(n, m, path, b, Some(d), k);
    }
    if Refines(n, m, path, key, value) {
      forall k: Bytes | path + [b] <= k
        ensures Lookup(d, k, |path + [b]|) == if k == key then value else Lookup(c, k, |path + [b]|)
      {
        assert path <= k;
      }
    }
  }

  /** Node values: storing or clearing one only affects the key equal to the path. */
  lemma PutValRefines<V>(n: Node<V>, path: Bytes, v: Option<Stored<V>>)
    requires WF(n, path) && !n.Leaf? && (v.Some? ==> v.value.key == path)
    ensures var m := PutVal(n, v);
            WF(n, path) && Sized(n) && WF(m, path) && Sized(m)
            && Refines(n, m, path, path, if v.Some? then Some(v.value.value) else None)
  {
    hide PutVal, Child, Local;
    PutValKeeps(n, v);
    var m := PutVal(n, v);
    WFSized(n, path);
    WFSized(m, path);
    forall k: Bytes | path <= k
      ensures Lookup(m, k, |path|) == if k == path then if v.Some? then Some(v.value.value) else None else Lookup(n, k, |path|)
    {
      if |k| <= |path| {
        assert k == path;
      }
    }
  }

  /** A new byte with a free slot: the new key is bound and nothing else changes. */
  lemma AddNewRefines<V>(n: Node<V>, path: Bytes, key: Bytes, value: V)
    requires WF(n, path) && !n.Leaf? && path <= key && |path| < |key|
    requires !HasByte(n, key[|path|]) && SlotFree(n)
    ensures var m := AddNew(n, key[|path|], Leaf(key, value));
            WF(m, path) && Sized(n) && Sized(m) && Refines(n, m, path, key, Some(value))
  {
    hide AddNew, ShapeOk, ChildAt, HasByte, Child, Local, Lookup, SlotFree, WF;
    var b, leaf := key[|path|], Leaf(key, value);
    WFShape(n, path);
    var m := AddNew(n, b, leaf);
    AddNewAt(n, b, leaf);
    PathStep(path, key);
    LeafWF(leaf, path + [b]);
    WFChanged(n, m, path, b, Some(leaf));
    WFSized(m, path);
    NoByteNoChild(n, b);
    forall k: Bytes | path <= k
      ensures Lookup(m, k, |path|) == if k == key then Some(value) else Lookup(n, k, |path|)
    {
      hide *;
      LookupChanged(n, m, path, b, Some(leaf), k);
      LeafLookup(leaf, k, |path| + 1);
    }
  }

  lemma PathStep(path: Bytes, key: Bytes)
    requires path <= key && |path| < |key|
    ensures path + [key[|path|]] <= key
  {
  }

  lemma WFShape<V>(n: Node<V>, path: Bytes)
    requires WF(n, path)
    ensures ShapeOk(n) && Local(n) && Sized(n)
  {
    WFSized(n, path);
  }

  lemma LeafWF<V>(leaf: Node<V>, path: Bytes)
    requires leaf.Leaf? && path <= leaf.key
    ensures WF(leaf, path)
  {
  }

  lemma LeafLookup<V>(leaf: Node<V>, k: Bytes, depth: nat)
    requires leaf.Leaf?
    ensures Sized(leaf) && Lookup(leaf, k, depth) == if k == leaf.key then Some(leaf.value) else None
  {
  }

  lemma NoByteNoChild<V>(n: Node<V>, b: u8)
    requires Local(n) && !n.Leaf? && !HasByte(n, b)
    ensures Child(n, b).None?
  {
  }

  /** An insert that meets no hole answers the old binding and leaves a well-formed tree with the new one. */
  lemma {:induction false} InsertRefines<V>(n: Node<V>, path: Bytes, key: Bytes, value: V)
    requires WF(n, path) && Sized(n) && path <= key && Safe(n, key, |path|)
    ensures var r := Insert(n, key, value, |path|);
            && r.Inserted? && r.prev == Lookup(n, key, |path|)
            && WF(r.node, path) && Sized(r.node) && Refines(n, r.node, path, key, Some(value))
    decreases n
  {
    hide SetChild, AddNew, PutVal, Refines, ChildAt, ShapeOk, HasByte, Child;
    var d := |path|;
    if n.Leaf? {
      LeafInsert(n, path, key, value);
    } else if d >= |key| {
      assert key == path;
      PutValRefines(n, path, Some(Stored(key, value)));
    } else {
      var b := key[d];
      if HasByte(n, b) {
        ChildPresent(n, b);
        var c := Child(n, b).value;
        assert path + [b] <= key;
        InsertRefines(c, path + [b], key, value);
        var r := Insert(c, key, value, d + 1);
        SetChildStep(n, path, b, c, r.node, key, Some(value));
      } else {
        NoByteNoChild(n, b);
        AddNewRefines(n, path, key, value);
      }
    }
  }

  lemma LeafInsert<V>(n: Node<V>, path: Bytes, key: Bytes, value: V)
    requires n.Leaf? && WF(n, path) && path <= key
    ensures var r := Insert(n, key, value, |path|);
            && r.Inserted? && r.prev == Lookup(n, key, |path|)
            && WF(r.node, path) && Sized(r.node) && Refines(n, r.node, path, key, Some(value))
  {
    if n.key != key {
      SplitRefines(n, path, key, value);
    }
  }

  /** One level of descent: the new subtree in place of the old one. */
  lemma SetChildStep<V>(n: Node<V>, path: Bytes, b: u8, c: Node<V>, d: Node<V>, key: Bytes, value: Option<V>)
    requires WF(n, path) && !n.Leaf? && HasByte(n, b) && Child(n, b) == Some(c) && path + [b] <= key
    requires WF(d, path + [b]) && Sized(c) && Sized(d) && Refines(c, d, path + [b], key, value)
    ensures var m := SetChild(n, b, d);
            WF(m, path) && Sized(n) && Sized(m) && Refines(n, m, path, key, value)
  {
    hide SetChild, ShapeOk, ChildAt, HasByte, Child, Refines;
    WFSized(n, path);
    var m := SetChild(n, b, d);
    SetChildAt(n, b, d);
    WFChanged(n, m, path, b, Some(d));
    WFSized(m, path);
    SetChildRefines(n, m, path, b, c, d, key, value);
  }

  // ---------- when exactly an insert keeps the other keys ----------

  /** What the tree answers once the next slot, in use or not, belongs to the new byte as well. */
  ghost predicate Overwritten<V>(n: Node<V>, m: Node<V>, path: Bytes, b: u8, key: Bytes, value: V)
    requires Sized(n) && Sized(m) && n.Node48? && |n.index| == 256
  {
    forall k: Bytes :: path <= k ==>
      && Lookup(m, k, |path|)
         == (if |k| == |path| || (k[|path|] != b && n.index[k[|path|]] != n.numChildren as u8) then Lookup(n, k, |path|)
             else if k == key then Some(value) else None)
      && (|k| > |path| && k[|path|] == b ==> Lookup(n, k, |path|).None?)
  }

  lemma OverwriteLookups<V>(n: Node<V>, path: Bytes, key: Bytes, value: V)
    requires Sized(n) && n.Node48? && n.numChildren < 48 && |path| < |key|
    requires !HasByte(n, key[|path|])
    ensures var m := AddNew(n, key[|path|], Leaf(key, value));
            Sized(m) && Overwritten(n, m, path, key[|path|], key, value)
  {
    hide Lookup;
    var b, leaf := key[|path|], Leaf(key, value);
    var m := AddNew(n, b, leaf);
    InsertSized(n, key, value, |path|);
    forall x: u8 ensures Child(m, x) == if x == b || n.index[x] == n.numChildren as u8 then Some(leaf) else Child(n, x) {
    }
    forall k: Bytes | path <= k
      ensures Lookup(m, k, |path|)
              == if |k| == |path| || (k[|path|] != b && n.index[k[|path|]] != n.numChildren as u8) then Lookup(n, k, |path|)
                 else if k == key then Some(value) else None
      ensures |k| > |path| && k[|path|] == b ==> Lookup(n, k, |path|).None?
    {
      LookupOverwritten(n, m, path, b, leaf, k);
    }
  }

  lemma KeepsRefines<V>(n: Node<V>, m: Node<V>, path: Bytes, key: Bytes, value: V)
    requires WF(n, path) && Sized(n) && Sized(m) && n.Node48? && n.numChildren < 48 && path <= key && |path| < |key|
    requires !HasByte(n, key[|path|]) && Overwritten(n, m, path, key[|path|], key, value) && Keeps(n, path, key)
    ensures Refines(n, m, path, key, Some(value))
  {
    hide Lookup;
    var b := key[|path|];
    forall k: Bytes | path <= k
      ensures Lookup(m, k, |path|) == if k == key then Some(value) else Lookup(n, k, |path|)
    {
      if |k| > |path| && k[|path|] != b && n.index[k[|path|]] == n.numChildren as u8 {
        var x := k[|path|];
        assert path + [x] <= k;
        assert NoKeys(Child(n, x).value, path + [x]);
        LookupThrough(n, path, x, k);
      }
    }
  }

  lemma RefinesKeeps<V>(n: Node<V>, m: Node<V>, path: Bytes, key: Bytes, value: V)
    requires Sized(n) && Sized(m) && n.Node48? && n.numChildren < 48 && path <= key && |path| < |key|
    requires !HasByte(n, key[|path|]) && Overwritten(n, m, path, key[|path|], key, value)
    requires Refines(n, m, path, key, Some(value))
    ensures Keeps(n, path, key)
  {
    hide Lookup;
    var b := key[|path|];
    assert Child(n, b).None?;
    forall x: u8, k: Bytes | n.index[x] == n.numChildren as u8 && Child(n, x).Some? && path + [x] <= k
      ensures Lookup(Child(n, x).value, k, |path + [x]|).None?
    {
      assert path <= k && k[|path|] == x && x != b && k != key;
      LookupThrough(n, path, x, k);
    }
  }

  /** The overwritten slot: the other keys stay exactly when the subtree in it holds none. */
  lemma OverwriteExact<V>(n: Node<V>, path: Bytes, key: Bytes, value: V)
    requires WF(n, path) && Sized(n) && n.Node48? && n.numChildren < 48 && path <= key && |path| < |key|
    requires !HasByte(n, key[|path|])
    ensures var m := AddNew(n, key[|path|], Leaf(key, value));
            Sized(m) && (Refines(n, m, path, key, Some(value)) <==> Keeps(n, path, key))
  {
    hide Refines, Keeps, Overwritten, AddNew, HasByte, WF;
    var m := AddNew(n, key[|path|], Leaf(key, value));
    OverwriteLookups(n, path, key, value);
    if Keeps(n, path, key) {
      KeepsRefines(n, m, path, key, value);
    }
    if Refines(n, m, path, key, Some(value)) {
      RefinesKeeps(n, m, path, key, value);
    }
  }

  lemma LookupThrough<V>(n: Node<V>, path: Bytes, x: u8, k: Bytes)
    requires Sized(n) && !n.Leaf? && path + [x] <= k
    ensures Lookup(n, k, |path|) == if Child(n, x).None? then None else Lookup(Child(n, x).value, k, |path + [x]|)
  {
    assert k[|path|] == x;
  }

  lemma LookupOverwritten<V>(n: Node<V>, m: Node<V>, path: Bytes, b: u8, leaf: Node<V>, k: Bytes)
    requires Sized(n) && Sized(m) && n.Node48? && n.numChildren < 48 && m.Node48? && leaf.Leaf? && path <= k
    requires Child(n, b).None? && m.val == n.val
    requires forall x: u8 :: Child(m, x) == if x == b || n.index[x] == n.numChildren as u8 then Some(leaf) else Child(n, x)
    ensures Lookup(m, k, |path|)
            == if |k| == |path| || (k[|path|] != b && n.index[k[|path|]] != n.numChildren as u8) then Lookup(n, k, |path|)
               else if k == leaf.key then Some(leaf.value) else None
    ensures |k| > |path| && k[|path|] == b ==> Lookup(n, k, |path|).None?
  {
  }

  /**
   * On a well-formed tree an insert never stops the program, and it binds its key and keeps every other
   * one exactly when the subtree in the slot it takes over, if there is one, holds no key.
   */
  lemma {:induction false} InsertExact<V>(n: Node<V>, path: Bytes, key: Bytes, value: V)
    requires WF(n, path) && Sized(n) && path <= key
    ensures var r := Insert(n, key, value, |path|);
            && r.Inserted? && Sized(r.node)
            && (Refines(n, r.node, path, key, Some(value)) <==> Keeps(n, path, key))
    decreases n
  {
    hide SetChild, AddNew, PutVal, Refines, ChildAt, ShapeOk, HasByte, Child, NoKeys;
    var d := |path|;
    if n.Leaf? {
      LeafInsert(n, path, key, value);
    } else if d >= |key| {
      assert key == path;
      PutValRefines(n, path, Some(Stored(key, value)));
    } else {
      var b := key[d];
      if HasByte(n, b) {
        ChildPresent(n, b);
        var c := Child(n, b).value;
        assert path + [b] <= key;
        InsertExact(c, path + [b], key, value);
        var r := Insert(c, key, value, d + 1);
        SetChildAt(n, b, r.node);
        InsertSized(n, key, value, d);
        SetChildRefines(n, SetChild(n, b, r.node), path, b, c, r.node, key, Some(value));
      } else if n.Node48? && n.numChildren < 48 {
        OverwriteExact(n, path, key, value);
      } else {
        AddNewRefines(n, path, key, value);
      }
    }
  }

  /** A free slot is enough. */
  lemma {:induction false} SafeKeeps<V>(n: Node<V>, path: Bytes, key: Bytes)
    requires Sized(n) && Safe(n, key, |path|)
    ensures Keeps(n, path, key)
    decreases n
  {
    if !n.Leaf? && |path| < |key| && Child(n, key[|path|]).Some? {
      SafeKeeps(Child(n, key[|path|]).value, path + [key[|path|]], key);
    }
  }

  // ---------- one remove ----------

  /** A remove answers the old binding and takes exactly that key away. */
  lemma {:induction false} RemoveRefines<V>(n: Node<V>, path: Bytes, key: Bytes)
    requires WF(n, path) && Sized(n) && path <= key && !n.Leaf?
    ensures var (m, prev) := Remove(n, key, |path|);
            && prev == Lookup(n, key, |path|) && !m.Leaf?
            && WF(m, path) && Sized(m) && Refines(n, m, path, key, None)
    decreases n
  {
    hide SetChild, DropChild, PutVal, Refines, ChildAt, ShapeOk, HasByte, Child;
    var d := |path|;
    if d >= |key| {
      assert key == path;
      PutValRefines(n, path, None);
      PutValKeeps(n, None);
    } else {
      var b := key[d];
      assert path + [b] <= key;
      if Child(n, b).None? {
        NoneRefines(n, path, b, key);
      } else {
        var c := Child(n, b).value;
        if c.Leaf? && c.key == key {
          DropRefines(n, path, b, c, key);
        } else if c.Leaf? {
          OtherLeaf(n, path, b, c, key);
        } else {
          RemoveRefines(c, path + [b], key);
          SetChildAt(n, b, Remove(c, key, d + 1).0);
          SetChildStep(n, path, b, c, Remove(c, key, d + 1).0, key, None);
        }
      }
    }
  }

  lemma NoneRefines<V>(n: Node<V>, path: Bytes, b: u8, key: Bytes)
    requires Sized(n) && !n.Leaf? && Child(n, b).None? && path + [b] <= key
    ensures Lookup(n, key, |path|).None? && Refines(n, n, path, key, None)
  {
    LookupThrough(n, path, b, key);
  }

  lemma OtherLeaf<V>(n: Node<V>, path: Bytes, b: u8, c: Node<V>, key: Bytes)
    requires WF(n, path) && !n.Leaf? && Child(n, b) == Some(c) && c.Leaf? && c.key != key && path + [b] <= key
    ensures var m := SetChild(n, b, c);
            !m.Leaf? && WF(m, path) && Sized(n) && Sized(m) && Refines(n, m, path, key, None) && Lookup(n, key, |path|).None?
  {
    hide SetChild, ShapeOk, ChildAt, HasByte;
    WFSized(n, path);
    SetChildAt(n, b, c);
    assert Refines(c, c, path + [b], key, None);
    SetChildStep(n, path, b, c, c, key, None);
    LookupThrough(n, path, b, key);
  }

  lemma DropRefines<V>(n: Node<V>, path: Bytes, b: u8, c: Node<V>, key: Bytes)
    requires WF(n, path) && !n.Leaf? && Child(n, b) == Some(c) && c.Leaf? && c.key == key && path + [b] <= key
    ensures var m := DropChild(n, b);
            && !m.Leaf? && WF(m, path) && Sized(n) && Sized(m) && Refines(n, m, path, key, None)
            && Lookup(n, key, |path|) == Some(c.value)
  {
    hide DropChild, ShapeOk, ChildAt, HasByte;
    WFSized(n, path);
    var m := DropChild(n, b);
    DropChildAt(n, b);
    WFChanged(n, m, path, b, None);
    WFSized(m, path);
    LookupThrough(n, path, b, key);
    forall k: Bytes | path <= k
      ensures Lookup(m, k, |path|) == if k == key then None else Lookup(n, k, |path|)
    {
      LookupChanged(n, m, path, b, None, k);
    }
  }
}

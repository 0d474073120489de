// The radix tree as a map: what each node change does to the children by byte, and from that what
// insert and remove do to every key (crates/tpx-index/src/art.rs).

module ArtProofs {
  import opened Wrappers
  import opened Types
  import opened Art

  // ---------- well-formed trees ----------

  /** Every used byte leads to an occupied slot, and no two bytes share one. Holes are allowed. */
  ghost predicate IndexOk<V>(index: seq<u8>, children: seq<Option<Node<V>>>)
    requires |index| == 256 && |children| == 48 && forall b: u8 :: index[b] == NO_SLOT || index[b] < 48
  {
    && (forall b: u8 :: index[b] != NO_SLOT ==> children[index[b]].Some?)
    && (forall b: u8, c: u8 :: index[b] == index[c] && index[b] != NO_SLOT ==> b == c)
  }

  ghost predicate ShapeOk<V>(n: Node<V>) {
    Local(n) && (n.Node48? ==> IndexOk(n.index, n.children))
  }

  /** Well-shaped nodes, keys that extend their path, and node values stored under the path itself. */
  ghost predicate WF<V>(n: Node<V>, path: Bytes)
    decreases n
  {
    && ShapeOk(n)
    && (n.Leaf? ==> path <= n.key)
    && (!n.Leaf? ==> n.val.Some? ==> n.val.value.key == path)
    && (!n.Leaf? ==> forall b: u8 :: Child(n, b).Some? ==> WF(Child(n, b).value, path + [b]))
  }

  lemma {:induction false} WFSized<V>(n: Node<V>, path: Bytes)
    requires WF(n, path)
    ensures Sized(n)
    decreases n
  {
    if !n.Leaf? {
      forall b: u8 | Child(n, b).Some? ensures Sized(Child(n, b).value) {
        WFSized(Child(n, b).value, path + [b]);
      }
    }
  }

  // ---------- one node ----------

  /** In a well-shaped node, a used byte always has its child: the code's `unwrap` cannot fail. */
  lemma ChildPresent<V>(n: Node<V>, b: u8)
    requires ShapeOk(n) && !n.Leaf? && HasByte(n, b)
    ensures Child(n, b).Some?
  {
  }

  lemma FindUnique(keys: seq<u8>, n: nat, i: nat)
    requires i < n <= |keys| && forall i, j :: 0 <= i < j < n ==> keys[i] != keys[j]
    ensures FindByte(keys, n, keys[i]) == Some(i)
  {
  }

  /** `m` has the same children as `n`, except that byte `b` leads to `c`. */
  ghost predicate ChildAt<V>(n: Node<V>, m: Node<V>, b: u8, c: Option<Node<V>>)
    requires Local(n) && !n.Leaf? && Local(m) && !m.Leaf?
  {
    m.val == n.val && Child(m, b) == c && forall x: u8 :: x != b ==> Child(m, x) == Child(n, x)
  }

  lemma SetChildAt<V>(n: Node<V>, b: u8, c: Node<V>)
    requires ShapeOk(n) && !n.Leaf? && HasByte(n, b)
    ensures var m := SetChild(n, b, c); !m.Leaf? && ShapeOk(m) && ChildAt(n, m, b, Some(c))
  {
  }

  /** Storing or clearing the node's own value touches no child. */
  lemma PutValKeeps<V>(n: Node<V>, v: Option<Stored<V>>)
    requires Local(n) && !n.Leaf?
    ensures var m := PutVal(n, v);
            && !m.Leaf? && Local(m) && (ShapeOk(n) ==> ShapeOk(m)) && m.val == v
            && forall x: u8 :: Child(m, x) == Child(n, x)
  {
  }

  /** The entries of `keys[..n]` in `children`, as a search for `x` finds them. */
  lemma FindExtend(keys: seq<u8>, more: seq<u8>, n: nat, x: u8)
    requires n < |more| && n <= |keys| && keys[..n] == more[..n]
    ensures FindByte(more, n + 1, x) == if FindByte(keys, n, x).Some? then FindByte(keys, n, x)
                                        else if more[n] == x then Some(n) else None
  {
    FindSame(keys, more, 0, n, x);
    FindStep(more, 0, n, x);
  }

  lemma {:induction false} FindSame(keys: seq<u8>, more: seq<u8>, i: nat, n: nat, x: u8)
    requires n <= |keys| && n <= |more| && keys[..n] == more[..n]
    ensures FindFrom(keys, i, n, x) == FindFrom(more, i, n, x)
    decreases n - i
  {
    if i < n {
      assert keys[i] == keys[..n][i] == more[..n][i] == more[i];
      FindSame(keys, more, i + 1, n, x);
    }
  }

  lemma {:induction false} FindStep(keys: seq<u8>, i: nat, n: nat, x: u8)
    requires i <= n < |keys|
    ensures FindFrom(keys, i, n + 1, x) == if FindFrom(keys, i, n, x).Some? then FindFrom(keys, i, n, x)
                                           else if keys[n] == x then Some(n) else None
    decreases n - i
  {
    if i < n {
      FindStep(keys, i + 1, n, x);
    }
  }

  /** The position a new byte would take in a Node48 is not used by another byte. */
  predicate SlotFree<V>(n: Node<V>)
    requires Local(n)
  {
    n.Node48? && n.numChildren < 48 ==> forall x: u8 :: n.index[x] != n.numChildren as u8
  }

  lemma AddLinear<V>(n: Node<V>, b: u8, leaf: Node<V>)
    requires ShapeOk(n) && (n.Node4? || n.Node16?) && !HasByte(n, b)
    requires n.Node4? ==> n.numChildren < 4
    requires n.Node16? ==> n.numChildren < 16
    ensures var m := AddNew(n, b, leaf); !m.Leaf? && ShapeOk(m) && ChildAt(n, m, b, Some(leaf))
  {
    var m := AddNew(n, b, leaf);
    forall x: u8 ensures Child(m, x) == if x == b then Some(leaf) else Child(n, x) {
      FindExtend(n.keys, m.keys, n.numChildren, x);
    }
  }

  lemma GrowTo16<V>(n: Node<V>, b: u8, leaf: Node<V>)
    requires ShapeOk(n) && n.Node4? && n.numChildren == 4 && !HasByte(n, b)
    ensures var m := AddNew(n, b, leaf); !m.Leaf? && ShapeOk(m) && ChildAt(n, m, b, Some(leaf))
  {
    var m := AddNew(n, b, leaf);
    assert m.keys[..4] == n.keys[..4];
    forall x: u8 ensures Child(m, x) == if x == b then Some(leaf) else Child(n, x) {
      FindExtend(n.keys, m.keys, 4, x);
    }
  }

  lemma {:induction false} GrownIndexFinds(keys: seq<u8>, n: nat, x: u8)
    requires n <= |keys| && n <= 48 && forall i, j :: 0 <= i < j < n ==> keys[i] != keys[j]
    ensures GrownIndex(keys, n)[x] == if FindByte(keys, n, x).Some? then FindByte(keys, n, x).value as u8 else NO_SLOT
  {
    if n > 0 {
      GrownIndexFinds(keys, n - 1, x);
      FindStep(keys, 0, n - 1, x);
    }
  }

  lemma GrowTo48<V>(n: Node<V>, b: u8, leaf: Node<V>)
    requires ShapeOk(n) && n.Node16? && n.numChildren == 16 && !HasByte(n, b)
    ensures var m := AddNew(n, b, leaf); !m.Leaf? && ShapeOk(m) && ChildAt(n, m, b, Some(leaf))
  {
    var m := AddNew(n, b, leaf);
    forall x: u8
      ensures m.index[x] == if x == b then 16 else if FindByte(n.keys, 16, x).Some? then FindByte(n.keys, 16, x).value as u8 else NO_SLOT
    {
      GrownIndexFinds(n.keys, 16, x);
    }
  }

  lemma AddTo48<V>(n: Node<V>, b: u8, leaf: Node<V>)
    requires ShapeOk(n) && n.Node48? && n.numChildren < 48 && !HasByte(n, b) && SlotFree(n)
    ensures var m := AddNew(n, b, leaf); !m.Leaf? && ShapeOk(m) && ChildAt(n, m, b, Some(leaf))
  {
  }

  lemma {:induction false} GrownChildrenFind<V>(index: seq<u8>, children: seq<Option<Node<V>>>, n: nat, x: nat)
    requires |index| == 256 && |children| == 48 && n <= 256 && x < 256
    requires forall b: u8 :: index[b] == NO_SLOT || index[b] < 48
    ensures index[x as u8] == NO_SLOT || index[x as u8] < 48
    ensures GrownChildren(index, children, n)[x]
            == if x < n && index[x as u8] != NO_SLOT then children[index[x as u8]] else None
  {
    if n > 0 {
      GrownChildrenFind(index, children, n - 1, x);
      assert index[n - 1] == index[(n - 1) as u8];
    }
  }

  lemma GrowTo256<V>(n: Node<V>, b: u8, leaf: Node<V>)
    requires ShapeOk(n) && n.Node48? && n.numChildren >= 48 && !HasByte(n, b)
    ensures var m := AddNew(n, b, leaf); !m.Leaf? && ShapeOk(m) && ChildAt(n, m, b, Some(leaf))
  {
    var m := AddNew(n, b, leaf);
    forall x: u8 ensures Child(m, x) == if x == b then Some(leaf) else Child(n, x) {
      GrownChildrenFind(n.index, n.children, 256, x as nat);
    }
  }

  /** A new byte gets its leaf and every other byte keeps its child, through every growth step. */
  lemma AddNewAt<V>(n: Node<V>, b: u8, leaf: Node<V>)
    requires ShapeOk(n) && !n.Leaf? && !HasByte(n, b) && SlotFree(n)
    ensures var m := AddNew(n, b, leaf); !m.Leaf? && ShapeOk(m) && ChildAt(n, m, b, Some(leaf))
  {
    hide ChildAt, ShapeOk, AddNew;
    match n {
      case Node4(_, _, num, _) => if num < 4 { AddLinear(n, b, leaf); } else { Full(n); GrowTo16(n, b, leaf); }
      case Node16(_, _, num, _) => if num < 16 { AddLinear(n, b, leaf); } else { Full(n); GrowTo48(n, b, leaf); }
      case Node48(_, _, num, _) => if num < 48 { AddTo48(n, b, leaf); } else { GrowTo256(n, b, leaf); }
      case Node256(_, _, _) => AddTo256(n, b, leaf);
    }
  }

  lemma Full<V>(n: Node<V>)
    requires ShapeOk(n)
    ensures n.Node4? ==> n.numChildren <= 4
    ensures n.Node16? ==> n.numChildren <= 16
  {
  }

  lemma AddTo256<V>(n: Node<V>, b: u8, leaf: Node<V>)
    requires ShapeOk(n) && n.Node256? && !HasByte(n, b)
    ensures var m := AddNew(n, b, leaf); !m.Leaf? && ShapeOk(m) && ChildAt(n, m, b, Some(leaf))
  {
  }

  // ---------- removing one child ----------

  lemma {:induction false} FindShift(keys: seq<u8>, n: nat, i: nat, x: u8)
    requires i < n <= |keys| && forall i, j :: 0 <= i < j < n ==> keys[i] != keys[j]
    ensures var r := FindByte(ShiftKeys(keys, n, i), n - 1, x);
            var f := FindByte(keys, n, x);
            r == if f.None? || f.value == i then None else if f.value < i then f else Some(f.value - 1)
  {
    var shifted := ShiftKeys(keys, n, i);
    forall j | 0 <= j < n - 1 ensures shifted[j] == keys[if j < i then j else j + 1] {
    }
    var f := FindByte(keys, n, x);
    if f.Some? && f.value != i {
      var j := if f.value < i then f.value else f.value - 1;
      assert shifted[j] == x;
      FindUnique(shifted, n - 1, j);
    }
  }

  lemma ShiftOk<V>(keys: seq<u8>, children: seq<Option<Node<V>>>, n: nat, i: nat)
    requires i < n <= |keys| == |children| && LinearOk(keys, children, n)
    ensures LinearOk(ShiftKeys(keys, n, i), ShiftChildren(children, n, i), n - 1)
    ensures forall j :: 0 <= j < n - 1 ==> ShiftChildren(children, n, i)[j] == children[if j < i then j else j + 1]
  {
    forall j | 0 <= j < n - 1 ensures ShiftKeys(keys, n, i)[j] == keys[if j < i then j else j + 1] {
    }
  }

  lemma ShiftFinds<V>(keys: seq<u8>, children: seq<Option<Node<V>>>, n: nat, i: nat, x: u8)
    requires i < n <= |keys| == |children| && LinearOk(keys, children, n)
    ensures var r := FindByte(ShiftKeys(keys, n, i), n - 1, x);
            var f := FindByte(keys, n, x);
            (if r.Some? then ShiftChildren(children, n, i)[r.value] else None)
            == if f.Some? && f.value != i then children[f.value] else None
  {
    hide FindByte, ShiftKeys, ShiftChildren;
    ShiftOk(keys, children, n, i);
    FindShift(keys, n, i, x);
  }

  lemma DropLinear<V>(n: Node<V>, b: u8)
    requires ShapeOk(n) && (n.Node4? || n.Node16?) && HasByte(n, b)
    ensures var m := DropChild(n, b); !m.Leaf? && ShapeOk(m) && ChildAt(n, m, b, None)
  {
    hide ShiftKeys, ShiftChildren, LinearOk, FindFrom;
    var i := FindByte(n.keys, n.numChildren, b).value;
    var m := DropChild(n, b);
    ShiftOk(n.keys, n.children, n.numChildren, i);
    forall x: u8 ensures Child(m, x) == if x == b then None else Child(n, x) {
      ShiftFinds(n.keys, n.children, n.numChildren, i, x);
      if x == b || (FindByte(n.keys, n.numChildren, x).Some? && FindByte(n.keys, n.numChildren, x).value == i) {
        assert x == b;
      }
    }
  }

  lemma DropIndexed<V>(n: Node<V>, b: u8)
    requires ShapeOk(n) && (n.Node48? || n.Node256?) && HasByte(n, b)
    ensures var m := DropChild(n, b); !m.Leaf? && ShapeOk(m) && ChildAt(n, m, b, None)
  {
  }

  /** Dropping a byte takes its child away and no other, whether by shifting or by leaving a hole. */
  lemma DropChildAt<V>(n: Node<V>, b: u8)
    requires ShapeOk(n) && !n.Leaf? && HasByte(n, b)
    ensures var m := DropChild(n, b); !m.Leaf? && ShapeOk(m) && ChildAt(n, m, b, None)
  {
    hide ChildAt, ShapeOk, DropChild;
    if n.Node4? || n.Node16? {
      DropLinear(n, b);
    } else {
      DropIndexed(n, b);
    }
  }

  // ---------- damaged nodes stay within bounds ----------

  /** Every child of `m` is a child of `n` at the same byte, or `c`. */
  ghost predicate ChildIn<V>(n: Node<V>, m: Node<V>, c: Option<Node<V>>)
    requires Local(n) && !n.Leaf? && Local(m) && !m.Leaf?
  {
    forall x: u8 :: Child(m, x) == Child(n, x) || Child(m, x) == c || Child(m, x).None?
  }

  lemma SetChildIn<V>(n: Node<V>, b: u8, c: Node<V>)
    requires Local(n) && !n.Leaf? && HasByte(n, b)
    ensures var m := SetChild(n, b, c); !m.Leaf? && Local(m) && ChildIn(n, m, Some(c))
  {
  }

  lemma AddNewIn<V>(n: Node<V>, b: u8, leaf: Node<V>)
    requires Local(n) && !n.Leaf? && !HasByte(n, b)
    ensures var m := AddNew(n, b, leaf); !m.Leaf? && Local(m) && ChildIn(n, m, Some(leaf))
  {
    match n {
      case Node48(index, children, num, _) =>
        if num >= 48 {
          forall x: u8 ensures GrownChildren(index, children, 256)[x] == Child(n, x) {
            GrownChildrenFind(index, children, 256, x as nat);
          }
        }
      case _ => AddNewAt(n, b, leaf);
    }
  }

  lemma DropChildIn<V>(n: Node<V>, b: u8)
    requires Local(n) && !n.Leaf? && HasByte(n, b)
    ensures var m := DropChild(n, b); !m.Leaf? && Local(m) && ChildIn(n, m, None)
  {
    if !n.Node48? {
      DropChildAt(n, b);
    }
  }

  lemma SizedIn<V>(n: Node<V>, m: Node<V>, c: Option<Node<V>>)
    requires Sized(n) && !n.Leaf? && !m.Leaf? && Local(m) && ChildIn(n, m, c)
    requires c.Some? ==> Sized(c.value)
    ensures Sized(m)
  {
  }

  lemma {:induction false} SplitSized<V>(leaf: Node<V>, key: Bytes, value: V, depth: nat)
    requires leaf.Leaf? && leaf.key != key
    ensures Sized(Split(leaf, key, value, depth))
    decreases |key| - depth
  {
    var ob, nb := At(leaf.key, depth), At(key, depth);
    if ob == nb && ob.Some? {
      SplitSized(leaf, key, value, depth + 1);
    }
  }

  /** Inserting stays within array bounds whatever state the tree is in. */
  lemma {:induction false} InsertSized<V>(n: Node<V>, key: Bytes, value: V, depth: nat)
    requires Sized(n)
    ensures var r := Insert(n, key, value, depth); r.Inserted? ==> Sized(r.node)
    decreases n
  {
    hide SetChild, AddNew, PutVal, ChildIn;
    if n.Leaf? {
      if n.key != key {
        SplitSized(n, key, value, depth);
      }
    } else if depth < |key| {
      var b := key[depth];
      if HasByte(n, b) {
        var c := Child(n, b);
        if c.Some? {
          InsertSized(c.value, key, value, depth + 1);
          var r := Insert(c.value, key, value, depth + 1);
          if r.Inserted? {
            SetChildIn(n, b, r.node);
            SizedIn(n, SetChild(n, b, r.node), Some(r.node));
          }
        }
      } else {
        AddNewIn(n, b, Leaf(key, value));
        SizedIn(n, AddNew(n, b, Leaf(key, value)), Some(Leaf(key, value)));
      }
    } else {
      PutValKeeps(n, Some(Stored(key, value)));
      SizedIn(n, WithVal(n, key, value), None);
    }
  }

  lemma {:induction false} RemoveSized<V>(n: Node<V>, key: Bytes, depth: nat)
    requires Sized(n)
    ensures Sized(Remove(n, key, depth).0)
    decreases n
  {
    hide SetChild, DropChild, PutVal, ChildIn, Local;
    if !n.Leaf? && depth < |key| && Child(n, key[depth]).Some? {
      var b, c := key[depth], Child(n, key[depth]).value;
      if c.Leaf? && c.key == key {
        DropChildIn(n, b);
        SizedIn(n, DropChild(n, b), None);
      } else {
        RemoveSized(c, key, depth + 1);
        var r := Remove(c, key, depth + 1).0;
        SetChildIn(n, b, r);
        SizedIn(n, SetChild(n, b, r), Some(r));
      }
    } else if !n.Leaf? && depth >= |key| {
      PutValKeeps(n, None);
      SizedIn(n, PutVal(n, None), None);
    }
  }

  // ---------- the tree as a map ----------

  /** Below `path`, `m` answers like `n` with `key` bound to `value`. */
  ghost predicate Refines<V>(n: Node<V>, m: Node<V>, path: Bytes, key: Bytes, value: Option<V>)
    requires Sized(n) && Sized(m)
  {
    forall k: Bytes :: path <= k ==>
                         Lookup(m, k, |path|) == if k == key then value else Lookup(n, k, |path|)
  }

  /** No key below `path` is stored in `n`. */
  ghost predicate NoKeys<V>(n: Node<V>, path: Bytes)
    requires Sized(n)
  {
    forall k: Bytes :: path <= k ==> Lookup(n, k, |path|).None?
  }

  /** At every Node48 that would take a new byte for `key`, the next slot is free. */
  predicate Safe<V>(n: Node<V>, key: Bytes, depth: nat)
    requires Sized(n)
    decreases n
  {
    n.Leaf? || depth >= |key| ||
    var b := key[depth];
    if HasByte(n, b) then Child(n, b).Some? ==> Safe(Child(n, b).value, key, depth + 1)
    else SlotFree(n)
  }

  /** The subtree that inserting `key` would overwrite, if there is one, holds no key. */
  ghost predicate Keeps<V>(n: Node<V>, path: Bytes, key: Bytes)
    requires Sized(n)
    decreases n
  {
    n.Leaf? || |path| >= |key| ||
    var b := key[|path|];
    if HasByte(n, b) then Child(n, b).Some? ==> Keeps(Child(n, b).value, path + [b], key)
    else n.Node48? && n.numChildren < 48 ==>
           forall x: u8 :: n.index[x] == n.numChildren as u8 && Child(n, x).Some? ==> NoKeys(Child(n, x).value, path + [x])
  }

  /** Children below a changed node are well formed if the new child is. */
  lemma WFChanged<V>(n: Node<V>, m: Node<V>, path: Bytes, b: u8, c: Option<Node<V>>)
    requires WF(n, path) && !n.Leaf? && !m.Leaf? && ShapeOk(m) && ChildAt(n, m, b, c)
    requires c.Some? ==> WF(c.value, path + [b])
    ensures WF(m, path)
  {
    forall x: u8 | Child(m, x).Some? ensures WF(Child(m, x).value, path + [x]) {
      if x != b {
        assert Child(n, x).Some?;
      }
    }
  }

  /** A lookup below a changed node only notices the change at its byte. */
  lemma LookupChanged<V>(n: Node<V>, m: Node<V>, path: Bytes, b: u8, c: Option<Node<V>>, k: Bytes)
    requires Sized(n) && Sized(m) && !n.Leaf? && !m.Leaf? && ChildAt(n, m, b, c) && path <= k
    ensures !(path + [b] <= k) ==> Lookup(m, k, |path|) == Lookup(n, k, |path|)
    ensures path + [b] <= k ==>
              Lookup(m, k, |path|) == if c.None? then None else Lookup(c.value, k, |path| + 1)
    ensures path + [b] <= k ==>
              Lookup(n, k, |path|) == if Child(n, b).None? then None else Lookup(Child(n, b).value, k, |path| + 1)
  {
    if |path| < |k| {
      assert path + [k[|path|]] <= k;
    }
  }

  // ---------- insert ----------

  /** `add_child` on a Node4 with room adds exactly one entry. */
  lemma AddChild4At<V>(n: Node<V>, b: u8, c: Node<V>)
    requires Local(n) && n.Node4? && n.numChildren < 4 && !HasByte(n, b)
    ensures var m := AddChild4(n, b, c);
            m.Node4? && ShapeOk(m) && m.numChildren == n.numChildren + 1 && ChildAt(n, m, b, Some(c))
  {
    AddLinear(n, b, c);
  }

  lemma BlankHasNothing<V>()
    ensures var n := Blank4<V>(); Local(n) && n.val.None? && forall x: u8 :: Child(n, x).None?
    ensures WF(Blank4<V>(), []) && forall path :: WF(Blank4<V>(), path)
  {
  }

  /** Splitting a leaf yields a well-formed subtree holding the old entry and the new one. */
  lemma {:induction false} SplitRefines<V>(leaf: Node<V>, path: Bytes, key: Bytes, value: V)
    requires leaf.Leaf? && leaf.key != key && path <= leaf.key && path <= key
    ensures var m := Split(leaf, key, value, |path|);
            WF(m, path) && Sized(m) && Refines(leaf, m, path, key, Some(value))
    decreases |key| - |path|
  {
    hide AddChild4, ChildAt, ShapeOk;
    var d := |path|;
    var ob, nb := At(leaf.key, d), At(key, d);
    var m, blank := Split(leaf, key, value, d), Blank4<V>();
    BlankHasNothing<V>();
    SplitSized(leaf, key, value, d);
    if ob == nb && ob.Some? {
      var b := ob.value;
      assert path + [b] <= leaf.key && path + [b] <= key;
      SplitRefines(leaf, path + [b], key, value);
      var c := Split(leaf, key, value, d + 1);
      AddChild4At(blank, b, c);
      SplitShared(blank, m, leaf, path, b, c, key, value);
    } else {
      SplitApart(leaf, path, key, value);
    }
  }

  /** One level of shared bytes. */
  lemma SplitShared<V>(blank: Node<V>, m: Node<V>, leaf: Node<V>, path: Bytes, b: u8, c: Node<V>, key: Bytes, value: V)
    requires leaf.Leaf? && path + [b] <= leaf.key && path + [b] <= key
    requires WF(blank, path) && !blank.Leaf? && blank.val.None? && forall x: u8 :: Child(blank, x).None?
    requires !m.Leaf? && ShapeOk(m) && Sized(m) && ChildAt(blank, m, b, Some(c))
    requires WF(c, path + [b]) && Sized(c) && Refines(leaf, c, path + [b], key, Some(value))
    ensures WF(m, path) && Refines(leaf, m, path, key, Some(value))
  {
    WFChanged(blank, m, path, b, Some(c));
    WFSized(blank, path);
    forall k: Bytes | path <= k
      ensures Lookup(m, k, |path|) == if k == key then Some(value) else Lookup(leaf, k, |path|)
    {
      LookupChanged(blank, m, path, b, Some(c), k);
      if path + [b] <= k {
        assert Lookup(c, k, |path| + 1) == if k == key then Some(value) else Lookup(leaf, k, |path| + 1);
      }
    }
  }

  /** The two keys part here: each becomes a child or the node's own value. */
  lemma SplitApart<V>(leaf: Node<V>, path: Bytes, key: Bytes, value: V)
    requires leaf.Leaf? && leaf.key != key && path <= leaf.key && path <= key
    requires At(leaf.key, |path|) != At(key, |path|) || At(key, |path|).None?
    ensures var m := Split(leaf, key, value, |path|);
            WF(m, path) && Sized(m) && Refines(leaf, m, path, key, Some(value))
  {
    var d := |path|;
    var ob, nb := At(leaf.key, d), At(key, d);
    var blank, added := Blank4<V>(), Leaf(key, value);
    BlankHasNothing<V>();
    assert ob.None? ==> leaf.key == path;
    assert nb.None? ==> key == path;
    assert ob.Some? || nb.Some?;
    var n := if ob.Some? then AddChild4(blank, ob.value, leaf) else WithVal(blank, leaf.key, leaf.value);
    if ob.Some? {
      assert path + [ob.value] <= leaf.key;
      AddChild4At(blank, ob.value, leaf);
      WFChanged(blank, n, path, ob.value, Some(leaf));
    } else {
      PutValKeeps(blank, Some(Stored(leaf.key, leaf.value)));
    }
    WFSized(n, path);
    var m := if nb.Some? then AddChild4(n, nb.value, added) else WithVal(n, key, value);
    if nb.Some? {
      assert path + [nb.value] <= key;
      AddChild4At(n, nb.value, added);
      WFChanged(n, m, path, nb.value, Some(added));
    } else {
      PutValKeeps(n, Some(Stored(key, value)));
    }
    WFSized(m, path);
    forall k: Bytes | path <= k
      ensures Lookup(m, k, d) == if k == key then Some(value) else Lookup(leaf, k, d)
    {
      ApartLookup(leaf, n, m, path, key, value, k);
    }
  }

  lemma ApartLookup<V>(leaf: Node<V>, n: Node<V>, m: Node<V>, path: Bytes, key: Bytes, value: V, k: Bytes)
    requires leaf.Leaf? && leaf.key != key && path <= leaf.key && path <= key && path <= k
    requires var ob := At(leaf.key, |path|);
             !n.Leaf? && Sized(n) && (forall x: u8 :: Child(n, x) == if ob == Some(x) then Some(leaf) else None)
             && n.val == if ob.None? then Some(Stored(leaf.key, leaf.value)) else None
    requires var nb := At(key, |path|);
             !m.Leaf? && Sized(m) && (forall x: u8 :: Child(m, x) == if nb == Some(x) then Some(Leaf(key, value)) else Child(n, x))
             && m.val == if nb.None? then Some(Stored(key, value)) else n.val
    requires At(leaf.key, |path|) != At(key, |path|)
    ensures Lookup(m, k, |path|) == if k == key then Some(value) else Lookup(leaf, k, |path|)
  {
    var d := |path|;
    if d >= |k| {
      assert k == path;
    }
    if d >= |leaf.key| {
      assert leaf.key == path;
    }
    if d >= |key| {
      assert key == path;
    }
  }
}

// The tree's operations as the code runs them: byte searches, growth and shifting by loops, descent
// by loop or recursion, collectors that push into a result (crates/tpx-index/src/art.rs).

module ArtTree {
  import opened Wrappers
  import opened Types
  import opened Art
  import opened ArtProofs
  import opened ArtMap
  import opened ArtRuns
  import opened ArtPrefix

  /** The scan over the used keys of a linear node. */
  method SearchByte(keys: seq<u8>, n: nat, b: u8) returns (r: Option<nat>)
    requires n <= |keys|
    ensures r == FindByte(keys, n, b)
  {
    var i := 0;
    while i < n
      invariant 0 <= i <= n
      invariant FindByte(keys, n, b) == FindFrom(keys, i, n, b)
    {
      if keys[i] == b {
        return Some(i);
      }
      i := i + 1;
    }
    return None;
  }

  /** The used index entry for `b`, if any: `HasByte` and the child behind it. */
  method FindChild<V>(n: Node<V>, b: u8) returns (used: bool, c: Option<Node<V>>)
    requires Local(n) && !n.Leaf?
    ensures used == HasByte(n, b) && c == Child(n, b)
  {
    match n {
      case Node4(keys, children, num, _) =>
        var i := SearchByte(keys, num, b);
        used, c := i.Some?, if i.Some? then children[i.value] else None;
      case Node16(keys, children, num, _) =>
        var i := SearchByte(keys, num, b);
        used, c := i.Some?, if i.Some? then children[i.value] else None;
      case Node48(index, children, _, _) =>
        var slot := index[b];
        used, c := slot != NO_SLOT, if slot != NO_SLOT then children[slot] else None;
      case Node256(children, _, _) =>
        used, c := children[b].Some?, children[b];
    }
  }

  /** The 16 keys indexed by byte, one store per slot. */
  method BuildIndex(keys: seq<u8>) returns (index: seq<u8>)
    requires |keys| == 16
    ensures index == GrownIndex(keys, 16)
  {
    index := seq(256, _ => NO_SLOT);
    var i := 0;
    while i < 16
      invariant 0 <= i <= 16 && |index| == 256
      invariant index == GrownIndex(keys, i)
    {
      index := index[keys[i] := i as u8];
      i := i + 1;
    }
  }

  /** Every used byte's child moved to its own place. */
  method SpreadChildren<V>(index: seq<u8>, children: seq<Option<Node<V>>>) returns (grown: seq<Option<Node<V>>>)
    requires |index| == 256 && |children| == 48
    requires forall b: u8 :: index[b] == NO_SLOT || index[b] < 48
    ensures grown == GrownChildren(index, children, 256)
  {
    grown := Nones(256);
    var b := 0;
    while b < 256
      invariant 0 <= b <= 256 && |grown| == 256
      invariant grown == GrownChildren(index, children, b)
    {
      var s := index[b];
      assert s == index[b as u8];
      if s != NO_SLOT {
        grown := grown[b := children[s]];
      }
      b := b + 1;
    }
  }

  /** The first `n` entries copied into a larger array of blanks. */
  method CopyInto<T>(from: seq<T>, blank: seq<T>) returns (s: seq<T>)
    requires |from| <= |blank|
    ensures s == from + blank[|from|..]
  {
    s := blank;
    var i := 0;
    while i < |from|
      invariant 0 <= i <= |from| && |s| == |blank|
      invariant s == from[..i] + blank[i..]
    {
      s := s[i := from[i]];
      assert from[..i + 1] == from[..i] + [from[i]];
      i := i + 1;
    }
  }

  method AddEntry<V>(n: Node<V>, b: u8, leaf: Node<V>) returns (m: Node<V>)
    requires Local(n) && !n.Leaf? && !HasByte(n, b)
    ensures m == AddNew(n, b, leaf)
  {
    match n {
      case Node4(keys, children, num, val) =>
        if num < 4 {
          m := Node4(keys[num := b], children[num := Some(leaf)], num + 1, val);
        } else {
          var ks := CopyInto(keys, Zeros8(16));
          var cs := CopyInto(children, Nones(16));
          assert ks[4 := b] == keys[..4] + [b] + Zeros8(11);
          assert cs[4 := Some(leaf)] == children[..4] + [Some(leaf)] + Nones(11);
          m := Node16(ks[4 := b], cs[4 := Some(leaf)], 5, val);
        }
      case Node16(keys, children, num, val) =>
        if num < 16 {
          m := Node16(keys[num := b], children[num := Some(leaf)], num + 1, val);
        } else {
          var index := BuildIndex(keys);
          var cs := CopyInto(children, Nones(48));
          assert cs[16 := Some(leaf)] == children[..16] + [Some(leaf)] + Nones(31);
          m := Node48(index[b := 16], cs[16 := Some(leaf)], 17, val);
        }
      case Node48(index, children, num, val) =>
        if num < 48 {
          m := Node48(index[b := num as u8], children[num := Some(leaf)], num + 1, val);
        } else {
          var grown := SpreadChildren(index, children);
          m := Node256(grown[b := Some(leaf)], 49, val);
        }
      case Node256(children, num, val) =>
        m := Node256(children[b := Some(leaf)], (num + 1) % 0x1_0000, val);
    }
  }

  /** A leaf meeting another key: one Node4 per shared byte, built on the way back. */
  method SplitLeaf<V>(leaf: Node<V>, key: Bytes, value: V, depth: nat) returns (m: Node<V>)
    requires leaf.Leaf? && leaf.key != key
    ensures m == Split(leaf, key, value, depth)
    decreases |key| - depth
  {
    var ob, nb := At(leaf.key, depth), At(key, depth);
    if ob == nb && ob.Some? {
      var child := SplitLeaf(leaf, key, value, depth + 1);
      m := AddChild4(Blank4(), ob.value, child);
      return;
    }
    m := Blank4();
    if ob.Some? {
      m := AddChild4(m, ob.value, leaf);
    } else {
      m := WithVal(m, leaf.key, leaf.value);
    }
    if nb.Some? {
      m := AddChild4(m, nb.value, Leaf(key, value));
    } else {
      m := WithVal(m, key, value);
    }
  }

  method InsertRec<V>(n: Node<V>, key: Bytes, value: V, depth: nat) returns (r: Inserted<V>)
    requires Sized(n)
    ensures r == Insert(n, key, value, depth)
    decreases n
  {
    hide Child, HasByte, AddNew, SetChild, Split;
    if n.Leaf? {
      if n.key == key {
        return Inserted(Leaf(key, value), Some(n.value));
      }
      var m := SplitLeaf(n, key, value, depth);
      return Inserted(m, None);
    }
    if depth >= |key| {
      return Inserted(WithVal(n, key, value), if n.val.Some? then Some(n.val.value.value) else None);
    }
    var used, c := FindChild(n, key[depth]);
    if !used {
      var m := AddEntry(n, key[depth], Leaf(key, value));
      return Inserted(m, None);
    }
    if c.None? {
      return Panic;
    }
    var below := InsertRec(c.value, key, value, depth + 1);
    if below.Panic? {
      return Panic;
    }
    return Inserted(SetChild(n, key[depth], below.node), below.prev);
  }

  lemma KeyMoved<T>(s: seq<T>, i: nat, j: nat)
    requires i <= j < |s| - 1
    ensures (s[..i] + s[i + 1..j + 1] + s[j..])[j := s[j + 1]] == s[..i] + s[i + 1..j + 2] + s[j + 1..]
  {
    var a, b := (s[..i] + s[i + 1..j + 1] + s[j..])[j := s[j + 1]], s[..i] + s[i + 1..j + 2] + s[j + 1..];
    forall p | 0 <= p < |s| ensures a[p] == b[p] {
    }
  }

  lemma ChildMoved<T>(s: seq<T>, i: nat, j: nat, none: T)
    requires i <= j < |s| - 1
    ensures (s[..i] + s[i + 1..j + 1] + [none] + s[j + 1..])[j := s[j + 1]][j + 1 := none]
            == s[..i] + s[i + 1..j + 2] + [none] + s[j + 2..]
  {
    var a := (s[..i] + s[i + 1..j + 1] + [none] + s[j + 1..])[j := s[j + 1]][j + 1 := none];
    var b := s[..i] + s[i + 1..j + 2] + [none] + s[j + 2..];
    forall p | 0 <= p < |s| ensures a[p] == b[p] {
    }
  }

  /** The entries after position `i` moved down by one, the child slot they leave emptied. */
  method ShiftDown<V>(keys: seq<u8>, children: seq<Option<Node<V>>>, n: nat, i: nat)
    returns (ks: seq<u8>, cs: seq<Option<Node<V>>>)
    requires i < n <= |keys| == |children|
    ensures ks == ShiftKeys(keys, n, i) && cs == ShiftChildren(children, n, i)
  {
    ks, cs := keys, children[i := None];
    var j := i;
    while j < n - 1
      invariant i <= j <= n - 1 && |ks| == |keys| && |cs| == |children|
      invariant ks == keys[..i] + keys[i + 1..j + 1] + keys[j..]
      invariant cs == children[..i] + children[i + 1..j + 1] + [None] + children[j + 1..]
    {
      KeyMoved(keys, i, j);
      ChildMoved(children, i, j, None);
      ks := ks[j := keys[j + 1]];
      cs := cs[j := children[j + 1]][j + 1 := None];
      j := j + 1;
    }
  }

  method DropEntry<V>(n: Node<V>, b: u8) returns (m: Node<V>)
    requires Local(n) && !n.Leaf? && HasByte(n, b)
    ensures m == DropChild(n, b)
  {
    match n {
      case Node4(keys, children, num, val) =>
        var i := SearchByte(keys, num, b);
        var ks, cs := ShiftDown(keys, children, num, i.value);
        m := Node4(ks, cs, num - 1, val);
      case Node16(keys, children, num, val) =>
        var i := SearchByte(keys, num, b);
        var ks, cs := ShiftDown(keys, children, num, i.value);
        m := Node16(ks, cs, num - 1, val);
      case Node48(index, children, num, val) =>
        var slot := index[b];
        m := Node48(index[b := NO_SLOT], children[slot := None], (num + 255) % 256, val);
      case Node256(children, num, val) =>
        m := Node256(children[b := None], (num + 0xFFFF) % 0x1_0000, val);
    }
  }

  method RemoveRec<V>(n: Node<V>, key: Bytes, depth: nat) returns (m: Node<V>, prev: Option<V>)
    requires Sized(n)
    ensures (m, prev) == Remove(n, key, depth)
    decreases n
  {
    hide HasByte, DropChild, SetChild;
    if n.Leaf? {
      return n, if n.key == key then Some(n.value) else None;
    }
    if depth >= |key| {
      return PutVal(n, None), if n.val.Some? then Some(n.val.value.value) else None;
    }
    var _, c := FindChild(n, key[depth]);
    if c.None? {
      return n, None;
    }
    if c.value.Leaf? && c.value.key == key {
      m := DropEntry(n, key[depth]);
      return m, Some(c.value.value);
    }
    var below, was := RemoveRec(c.value, key, depth + 1);
    return SetChild(n, key[depth], below), was;
  }

  lemma SizedLocal<V>(n: Node<V>)
    requires Sized(n)
    ensures Local(n)
  {
  }

  /** The walk, one turn at a time. */
  lemma OneTurn<V>(n: Node<V>, i: nat)
    requires Sized(n) && !n.Leaf? && i <= Turns(n)
    ensures i == Turns(n) ==> CollectFrom(n, i) == []
    ensures i < Turns(n) ==>
              var c, rest := Turn(n, i), CollectFrom(n, i + 1);
              && (c.None? ==> CollectFrom(n, i) == rest)
              && (c.Some? ==> Sized(c.value) && c.value < n && CollectFrom(n, i) == CollectAll(c.value) + rest)
  {
    if i < Turns(n) {
      TurnIs(n, i);
      assert [] + CollectFrom(n, i + 1) == CollectFrom(n, i + 1);
    }
  }

  method CollectAllInto<V>(n: Node<V>, results: seq<Stored<V>>) returns (out: seq<Stored<V>>)
    requires Sized(n)
    ensures out == results + CollectAll(n)
    decreases n
  {
    hide Child, Turn, TurnByte, Sized, CollectFrom;
    if n.Leaf? {
      return results + [Stored(n.key, n.value)];
    }
    out := results;
    if n.val.Some? {
      out := out + [n.val.value];
    }
    ghost var head := out;
    assert head == results + Own(n);
    SizedLocal(n);
    var i := 0;
    while i < Turns(n)
      invariant 0 <= i <= Turns(n)
      invariant out + CollectFrom(n, i) == head + CollectFrom(n, 0)
    {
      OneTurn(n, i);
      var c := Turn(n, i);
      ghost var before := out;
      if c.Some? {
        out := CollectAllInto(c.value, out);
        assert before + CollectFrom(n, i) == out + CollectFrom(n, i + 1);
      }
      i := i + 1;
    }
    OneTurn(n, i);
    assert results + CollectAll(n) == head + CollectFrom(n, 0);
  }

  /** The prefix walk, one level at a time. */
  lemma OneLevel<V>(n: Node<V>, prefix: Bytes, depth: nat)
    requires Sized(n)
    ensures depth >= |prefix| ==> CollectPrefix(n, prefix, depth) == CollectAll(n)
    ensures depth < |prefix| && n.Leaf? ==>
              CollectPrefix(n, prefix, depth) == if prefix <= n.key then [Stored(n.key, n.value)] else []
    ensures depth < |prefix| && !n.Leaf? ==>
              Local(n) && var c := Child(n, prefix[depth]);
              (c.Some? ==> Sized(c.value) && c.value < n)
              && CollectPrefix(n, prefix, depth)
                 == (if n.val.Some? && prefix <= n.val.value.key then [n.val.value] else [])
                    + if c.None? then [] else CollectPrefix(c.value, prefix, depth + 1)
  {
    hide CollectAll, Child;
  }

  method CollectPrefixInto<V>(n: Node<V>, prefix: Bytes, depth: nat, results: seq<Stored<V>>)
    returns (out: seq<Stored<V>>)
    requires Sized(n)
    ensures out == results + CollectPrefix(n, prefix, depth)
    decreases n
  {
    hide Child, HasByte, CollectPrefix, CollectAll, Sized;
    OneLevel(n, prefix, depth);
    if depth >= |prefix| {
      out := CollectAllInto(n, results);
      return;
    }
    out := results;
    if n.Leaf? {
      if prefix <= n.key {
        out := out + [Stored(n.key, n.value)];
      }
      return;
    }
    if n.val.Some? && prefix <= n.val.value.key {
      out := out + [n.val.value];
    }
    SizedLocal(n);
    var _, c := FindChild(n, prefix[depth]);
    if c.Some? {
      out := CollectPrefixInto(c.value, prefix, depth + 1, out);
    }
  }

  /** The tree behind its lock. */
  class ArtTree<V(!new)> {
    var root: Tree<V>

    constructor ()
      ensures root == None && TreeOk(root)
    {
      root := None;
    }

    /**
     * `ok` is false when an `unwrap` would stop the program. On a well-formed tree that cannot happen,
     * and when no Node48 on the way has its next slot in use, exactly `key` is rebound.
     */
    method Insert(key: Bytes, value: V) returns (ok: bool, prev: Option<V>)
      requires TreeSized(root)
      modifies this
      ensures TreeSized(root)
      ensures ok == TreeInsert(old(root), key, value).Inserted? && (!ok ==> root == old(root))
      ensures ok ==> root == Some(TreeInsert(old(root), key, value).node) && prev == TreeInsert(old(root), key, value).prev
      ensures old(TreeOk(root)) ==> ok
      ensures old(TreeOk(root)) && (old(root).Some? ==> Safe(old(root).value, key, 0)) ==>
                && TreeOk(root) && prev == TreeGet(old(root), key)
                && forall k: Bytes :: TreeGet(root, k) == if k == key then Some(value) else TreeGet(old(root), k)
    {
      hide WF, Sized, Art.Insert, Refines;
      TreeStaysSized(root, key, Some(value));
      InsertSpec(root, key, value);
      if root.None? {
        root := Some(Leaf(key, value));
        return true, None;
      }
      var r := InsertRec(root.value, key, value, 0);
      if r.Panic? {
        return false, None;
      }
      root := Some(r.node);
      return true, r.prev;
    }

    method Get(key: Bytes) returns (r: Option<V>)
      requires TreeSized(root)
      ensures r == TreeGet(root, key)
    {
      hide Child, HasByte;
      if root.None? {
        return None;
      }
      var current, depth := root.value, 0;
      while !current.Leaf?
        invariant Sized(current)
        invariant Lookup(current, key, depth) == Lookup(root.value, key, 0)
        decreases current
      {
        if depth >= |key| {
          return if current.val.Some? then Some(current.val.value.value) else None;
        }
        var _, c := FindChild(current, key[depth]);
        if c.None? {
          return None;
        }
        current, depth := c.value, depth + 1;
      }
      return if current.key == key then Some(current.value) else None;
    }

    /** The old binding is answered; on a well-formed tree exactly `key` is unbound. */
    method Remove(key: Bytes) returns (prev: Option<V>)
      requires TreeSized(root)
      modifies this
      ensures TreeSized(root)
      ensures (root, prev) == TreeRemove(old(root), key)
      ensures old(TreeOk(root)) ==>
                && TreeOk(root) && prev == TreeGet(old(root), key)
                && forall k: Bytes :: TreeGet(root, k) == if k == key then None else TreeGet(old(root), k)
    {
      hide WF, Sized, Art.Remove, Refines;
      TreeStaysSized<V>(root, key, None);
      RemoveSpec(root, key);
      if root.None? {
        return None;
      }
      if root.value.Leaf? {
        if root.value.key == key {
          prev := Some(root.value.value);
          root := None;
          return;
        }
        return None;
      }
      var m, below := RemoveRec(root.value, key, 0);
      root := Some(m);
      return below;
    }

    /** On a well-formed tree: the bindings whose key starts with the prefix, once each. */
    method GetPrefix(prefix: Bytes) returns (results: seq<Stored<V>>)
      requires TreeSized(root)
      ensures results == TreePrefix(root, prefix)
      ensures TreeOk(root) ==> OnceEach(results)
      ensures TreeOk(root) ==>
                forall e: Stored<V> :: e in results <==> prefix <= e.key && TreeGet(root, e.key) == Some(e.value)
    {
      results := [];
      if root.Some? {
        results := CollectPrefixInto(root.value, prefix, 0, results);
      }
      if TreeOk(root) {
        PrefixIsExact(root, prefix);
      }
    }

    method Snapshot() returns (s: ArtSnapshot<V>)
      requires TreeSized(root)
      ensures fresh(s) && s.items == TreePrefix(root, [])
    {
      var items := GetPrefix([]);
      s := new ArtSnapshot(items);
    }
  }

  lemma InsertSpec<V>(t: Tree<V>, key: Bytes, value: V)
    requires TreeSized(t)
    ensures TreeOk(t) ==> TreeInsert(t, key, value).Inserted?
    ensures TreeOk(t) && (t.Some? ==> Safe(t.value, key, 0)) ==>
              var r := TreeInsert(t, key, value);
              && r.Inserted? && TreeOk(Some(r.node)) && r.prev == TreeGet(t, key)
              && forall k: Bytes :: Lookup(r.node, k, 0) == if k == key then Some(value) else TreeGet(t, k)
  {
    if TreeOk(t) && t.Some? {
      InsertExact(t.value, [], key, value);
      if Safe(t.value, key, 0) {
        InsertRefines(t.value, [], key, value);
      }
    }
  }

  lemma RemoveSpec<V>(t: Tree<V>, key: Bytes)
    requires TreeSized(t)
    ensures TreeOk(t) ==>
              var (next, prev) := TreeRemove(t, key);
              && TreeOk(next) && prev == TreeGet(t, key)
              && forall k: Bytes :: TreeGet(next, k) == if k == key then None else TreeGet(t, k)
  {
    if TreeOk(t) && t.Some? && !t.value.Leaf? {
      RemoveRefines(t.value, [], key);
    }
  }

  /** The items copied when the snapshot was taken. */
  class ArtSnapshot<V> {
    const items: seq<Stored<V>>

    constructor (items: seq<Stored<V>>)
      ensures this.items == items
    {
      this.items := items;
    }

    method Get(key: Bytes) returns (r: Option<V>)
      ensures r == FirstWith(items, key)
    {
      var i := 0;
      while i < |items|
        invariant 0 <= i <= |items|
        invariant FirstWith(items, key) == FirstWith(items[i..], key)
      {
        if items[i].key == key {
          return Some(items[i].value);
        }
        i := i + 1;
      }
      return None;
    }

    /** The items whose key starts with the prefix, in order. */
    method GetPrefix(prefix: Bytes) returns (found: seq<Stored<V>>)
      ensures found == WithPrefix(items, prefix)
      ensures exists places :: Picks(items, prefix, places, found)
    {
      hide Picks, WithPrefix;
      NoneWithPrefix<V>(prefix);
      assert items[0..] == items;
      found := [];
      var i := 0;
      while i < |items|
        invariant 0 <= i <= |items|
        invariant found + WithPrefix(items[i..], prefix) == WithPrefix(items, prefix)
      {
        WithPrefixFirst(items, i, prefix);
        if prefix <= items[i].key {
          found := found + [items[i]];
        }
        i := i + 1;
      }
      assert items[|items|..] == [];
      WithPrefixPicks(items, prefix);
    }
  }
}

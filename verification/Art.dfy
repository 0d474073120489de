// The adaptive radix tree as the code runs it: five node shapes, growth 4 -> 16 -> 48 -> 256, leaf
// splitting, no path compression and no shrinking (crates/tpx-index/src/art.rs).

module Art {
  import opened Wrappers
  import opened Types

  const NO_SLOT: u8 := 0xFF

  datatype Stored<V> = Stored(key: Bytes, value: V)

  /** The arrays of a node are fixed-size in the code; here they are sequences of that length. */
  datatype Node<V> =
    | Leaf(key: Bytes, value: V)
    | Node4(keys: seq<u8>, children: seq<Option<Node<V>>>, numChildren: nat, val: Option<Stored<V>>)
    | Node16(keys: seq<u8>, children: seq<Option<Node<V>>>, numChildren: nat, val: Option<Stored<V>>)
    | Node48(index: seq<u8>, children: seq<Option<Node<V>>>, numChildren: nat, val: Option<Stored<V>>)
    | Node256(children: seq<Option<Node<V>>>, numChildren: nat, val: Option<Stored<V>>)

  // ---------- looking at one node ----------

  /** The first `n` entries of a linear node: distinct bytes, each with its child. */
  ghost predicate LinearOk<V>(keys: seq<u8>, children: seq<Option<Node<V>>>, n: nat)
    requires n <= |keys| == |children|
  {
    && (forall i, j :: 0 <= i < j < n ==> keys[i] != keys[j])
    && (forall i :: 0 <= i < n ==> children[i].Some?)
  }

  /** What the code keeps in every node, even after a Node48 index has been damaged. */
  ghost predicate Local<V>(n: Node<V>) {
    match n
    case Leaf(_, _) => true
    case Node4(keys, children, num, _) => |keys| == |children| == 4 && num <= 4 && LinearOk(keys, children, num)
    case Node16(keys, children, num, _) => |keys| == |children| == 16 && num <= 16 && LinearOk(keys, children, num)
    case Node48(index, children, num, _) =>
      |index| == 256 && |children| == 48 && num < 256 && forall b: u8 :: index[b] == NO_SLOT || index[b] < 48
    case Node256(children, _, _) => |children| == 256
  }

  /** The first of the keys `i..n` equal to `b`. */
  function FindFrom(keys: seq<u8>, i: nat, n: nat, b: u8): (r: Option<nat>)
    requires n <= |keys|
    ensures r.Some? ==> i <= r.value < n && keys[r.value] == b
    ensures r.None? ==> forall j :: i <= j < n ==> keys[j] != b
    decreases n - i
  {
    if i >= n then None else if keys[i] == b then Some(i) else FindFrom(keys, i + 1, n, b)
  }

  function FindByte(keys: seq<u8>, n: nat, b: u8): (r: Option<nat>)
    requires n <= |keys|
    ensures r.Some? ==> r.value < n && keys[r.value] == b
    ensures r.None? ==> forall j :: 0 <= j < n ==> keys[j] != b
  {
    FindFrom(keys, 0, n, b)
  }

  /** Whether an inner node has an entry for byte `b`. */
  predicate HasByte<V>(n: Node<V>, b: u8)
    requires Local(n) && !n.Leaf?
  {
    match n
    case Node4(keys, _, num, _) => FindByte(keys, num, b).Some?
    case Node16(keys, _, num, _) => FindByte(keys, num, b).Some?
    case Node48(index, _, _, _) => index[b] != NO_SLOT
    case Node256(children, _, _) => children[b].Some?
  }

  /** The child that byte `b` leads to. */
  function Child<V>(n: Node<V>, b: u8): (c: Option<Node<V>>)
    requires Local(n) && !n.Leaf?
    ensures c.Some? ==> HasByte(n, b) && c.value < n
  {
    match n
    case Node4(keys, children, num, _) =>
      var i := FindByte(keys, num, b);
      if i.Some? then children[i.value] else None
    case Node16(keys, children, num, _) =>
      var i := FindByte(keys, num, b);
      if i.Some? then children[i.value] else None
    case Node48(index, children, _, _) =>
      if index[b] == NO_SLOT then None else children[index[b]]
    case Node256(children, _, _) => children[b]
  }

  /** `Local` all the way down. */
  ghost predicate Sized<V>(n: Node<V>)
    decreases n
  {
    Local(n) && (!n.Leaf? ==> forall b: u8 :: Child(n, b).Some? ==> Sized(Child(n, b).value))
  }

  /** `get`: the value stored for `key` below a node at `depth`. */
  function Lookup<V>(n: Node<V>, key: Bytes, depth: nat): Option<V>
    requires Sized(n)
    decreases n
  {
    if n.Leaf? then
      if n.key == key then Some(n.value) else None
    else if depth >= |key| then
      if n.val.Some? then Some(n.val.value.value) else None
    else
      var c := Child(n, key[depth]);
      if c.None? then None else Lookup(c.value, key, depth + 1)
  }

  // ---------- changing one node ----------

  function Blank4<V>(): Node<V> {
    Node4([0, 0, 0, 0], [None, None, None, None], 0, None)
  }

  /** `add_child` on a fresh Node4; a full node would silently drop the child. */
  function AddChild4<V>(n: Node<V>, b: u8, child: Node<V>): Node<V>
    requires Local(n) && n.Node4?
  {
    if n.numChildren < 4 then
      Node4(n.keys[n.numChildren := b], n.children[n.numChildren := Some(child)], n.numChildren + 1, n.val)
    else n
  }

  function PutVal<V>(n: Node<V>, v: Option<Stored<V>>): Node<V>
    requires !n.Leaf?
  {
    match n
    case Node4(keys, children, num, _) => Node4(keys, children, num, v)
    case Node16(keys, children, num, _) => Node16(keys, children, num, v)
    case Node48(index, children, num, _) => Node48(index, children, num, v)
    case Node256(children, num, _) => Node256(children, num, v)
  }

  function WithVal<V>(n: Node<V>, key: Bytes, value: V): Node<V>
    requires !n.Leaf?
  {
    PutVal(n, Some(Stored(key, value)))
  }

  /** The subtree behind `b` replaced in place. */
  function SetChild<V>(n: Node<V>, b: u8, c: Node<V>): Node<V>
    requires Local(n) && !n.Leaf? && HasByte(n, b)
  {
    match n
    case Node4(keys, children, num, val) =>
      Node4(keys, children[FindByte(keys, num, b).value := Some(c)], num, val)
    case Node16(keys, children, num, val) =>
      Node16(keys, children[FindByte(keys, num, b).value := Some(c)], num, val)
    case Node48(index, children, num, val) => Node48(index, children[index[b] := Some(c)], num, val)
    case Node256(children, num, val) => Node256(children[b := Some(c)], num, val)
  }

  function Zeros8(n: nat): (s: seq<u8>)
    ensures |s| == n
  {
    seq(n, _ => 0)
  }

  function Nones<V>(n: nat): (s: seq<Option<Node<V>>>)
    ensures |s| == n
  {
    seq(n, _ => None)
  }

  /** The index of a grown Node48: the first `n` keys in their slots. */
  function GrownIndex(keys: seq<u8>, n: nat): (index: seq<u8>)
    requires n <= |keys| && n <= 48
    ensures |index| == 256
    decreases n
  {
    if n == 0 then seq(256, _ => NO_SLOT) else GrownIndex(keys, n - 1)[keys[n - 1] := (n - 1) as u8]
  }

  /** The children of a grown Node256: each byte's child moved out of its slot. */
  function GrownChildren<V>(index: seq<u8>, children: seq<Option<Node<V>>>, n: nat): (grown: seq<Option<Node<V>>>)
    requires |index| == 256 && |children| == 48 && n <= 256
    requires forall b: u8 :: index[b] == NO_SLOT || index[b] < 48
    ensures |grown| == 256
    decreases n
  {
    if n == 0 then Nones(256)
    else
      var rest := GrownChildren(index, children, n - 1);
      var slot := index[n - 1];
      assert slot == index[(n - 1) as u8];
      if slot != NO_SLOT then rest[n - 1 := children[slot]] else rest
  }

  /** A new byte with its leaf: into the next free position, or into the next larger shape. */
  function AddNew<V>(n: Node<V>, b: u8, leaf: Node<V>): Node<V>
    requires Local(n) && !n.Leaf? && !HasByte(n, b)
  {
    match n
    case Node4(keys, children, num, val) =>
      if num < 4 then Node4(keys[num := b], children[num := Some(leaf)], num + 1, val)
      else Node16(keys[..4] + [b] + Zeros8(11), children[..4] + [Some(leaf)] + Nones(11), 5, val)
    case Node16(keys, children, num, val) =>
      if num < 16 then Node16(keys[num := b], children[num := Some(leaf)], num + 1, val)
      else Node48(GrownIndex(keys, 16)[b := 16], children[..16] + [Some(leaf)] + Nones(31), 17, val)
    case Node48(index, children, num, val) =>
      if num < 48 then Node48(index[b := num as u8], children[num := Some(leaf)], num + 1, val)
      else Node256(GrownChildren(index, children, 256)[b := Some(leaf)], 49, val)
    case Node256(children, num, val) =>
      Node256(children[b := Some(leaf)], (num + 1) % 0x1_0000, val)
  }

  // ---------- insert ----------

  /** `unwrap` on a missing child stops the program. */
  datatype Inserted<V> = Panic | Inserted(node: Node<V>, prev: Option<V>)

  function At(key: Bytes, i: nat): Option<u8> {
    if i < |key| then Some(key[i]) else None
  }

  /** Two different keys from `depth` on: shared bytes become Node4 levels, the rest two entries. */
  function Split<V>(leaf: Node<V>, key: Bytes, value: V, depth: nat): Node<V>
    requires leaf.Leaf? && leaf.key != key
    decreases |key| - depth
  {
    var ob, nb := At(leaf.key, depth), At(key, depth);
    if ob == nb && ob.Some? then
      AddChild4(Blank4(), ob.value, Split(leaf, key, value, depth + 1))
    else
      var n := if ob.Some? then AddChild4(Blank4(), ob.value, leaf) else WithVal(Blank4(), leaf.key, leaf.value);
      if nb.Some? then AddChild4(n, nb.value, Leaf(key, value)) else WithVal(n, key, value)
  }

  function Insert<V>(n: Node<V>, key: Bytes, value: V, depth: nat): Inserted<V>
    requires Sized(n)
    decreases n
  {
    if n.Leaf? then
      if n.key == key then Inserted(Leaf(key, value), Some(n.value))
      else Inserted(Split(n, key, value, depth), None)
    else if depth >= |key| then
      Inserted(WithVal(n, key, value), if n.val.Some? then Some(n.val.value.value) else None)
    else
      var b := key[depth];
      if HasByte(n, b) then
        var c := Child(n, b);
        if c.None? then Panic
        else
          var r := Insert(c.value, key, value, depth + 1);
          if r.Panic? then Panic else Inserted(SetChild(n, b, r.node), r.prev)
      else Inserted(AddNew(n, b, Leaf(key, value)), None)
  }

  // ---------- remove ----------

  /** Entry `i` closed up by shifting the later ones down; the last key byte stays behind. */
  function ShiftKeys(keys: seq<u8>, n: nat, i: nat): (r: seq<u8>)
    requires i < n <= |keys|
    ensures |r| == |keys|
  {
    keys[..i] + keys[i + 1..n] + keys[n - 1..]
  }

  function ShiftChildren<V>(children: seq<Option<Node<V>>>, n: nat, i: nat): (r: seq<Option<Node<V>>>)
    requires i < n <= |children|
    ensures |r| == |children|
  {
    children[..i] + children[i + 1..n] + [None] + children[n..]
  }

  /** The entry for `b` dropped: linear nodes close the gap, Node48 leaves a hole. */
  function DropChild<V>(n: Node<V>, b: u8): Node<V>
    requires Local(n) && !n.Leaf? && HasByte(n, b)
  {
    match n
    case Node4(keys, children, num, val) =>
      var i := FindByte(keys, num, b).value;
      Node4(ShiftKeys(keys, num, i), ShiftChildren(children, num, i), num - 1, val)
    case Node16(keys, children, num, val) =>
      var i := FindByte(keys, num, b).value;
      Node16(ShiftKeys(keys, num, i), ShiftChildren(children, num, i), num - 1, val)
    case Node48(index, children, num, val) =>
      Node48(index[b := NO_SLOT], children[index[b] := None], (num + 255) % 256, val)
    case Node256(children, num, val) => Node256(children[b := None], (num + 0xFFFF) % 0x1_0000, val)
  }

  /** `remove_rec`: a leaf child with the key is dropped, any other child is entered. */
  function Remove<V>(n: Node<V>, key: Bytes, depth: nat): (Node<V>, Option<V>)
    requires Sized(n)
    decreases n
  {
    if n.Leaf? then (n, if n.key == key then Some(n.value) else None)
    else if depth >= |key| then
      (PutVal(n, None), if n.val.Some? then Some(n.val.value.value) else None)
    else
      var b := key[depth];
      var c := Child(n, b);
      if c.None? then (n, None)
      else if c.value.Leaf? && c.value.key == key then (DropChild(n, b), Some(c.value.value))
      else
        var r := Remove(c.value, key, depth + 1);
        (SetChild(n, b, r.0), r.1)
  }
}

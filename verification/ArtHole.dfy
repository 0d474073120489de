// The run in which the tree and the map part: 17 inserts, one remove, one insert, and a present key is
// gone; two operations later an insert stops the program (crates/tpx-index/src/art.rs:308-313, 592-598).

module ArtHole {
  import opened Wrappers
  import opened Types
  import opened Art
  import opened ArtProofs
  import opened ArtRuns

  lemma {:induction false} RunAppend<V>(t: Tree<V>, a: seq<Op<V>>, b: seq<Op<V>>)
    requires TreeSized(t)
    ensures var first := Run(t, a);
            && (first.Ran? ==> var rest := Run(first.tree, b);
                               Run(t, a + b) == if rest.Stopped? then Stopped else Ran(rest.tree, first.answers + rest.answers))
            && (first.Stopped? ==> Run(t, a + b).Stopped?)
    decreases |a|
  {
    hide Step, TreeSized;
    if a == [] {
      assert a + b == b;
    } else {
      assert (a + b)[1..] == a[1..] + b;
      if Step(t, a[0]).Ran? {
        RunAppend(Step(t, a[0]).tree, a[1..], b);
      }
    }
  }

  lemma {:induction false} MapAppend<V>(m: map<Bytes, V>, a: seq<Op<V>>, b: seq<Op<V>>)
    ensures MapAfter(m, a + b) == MapAfter(MapAfter(m, a), b)
    decreases |a|
  {
    if a == [] {
      assert a + b == b;
    } else {
      assert (a + b)[1..] == a[1..] + b;
      MapAppend(MapStep(m, a[0]), a[1..], b);
    }
  }

  /** Inserts of the one-byte keys 0, 1, ..., n - 1. */
  function Puts(n: nat): seq<Op<int>>
    requires n <= 256
  {
    if n == 0 then [] else Puts(n - 1) + [Put([(n - 1) as u8], n - 1)]
  }

  function Entry(j: nat): Node<int>
    requires j < 256
  {
    Leaf([j as u8], j)
  }

  /** The root after those inserts: every byte in the slot of its turn. */
  ghost predicate Rows(n: Node<int>, i: nat)
    requires 2 <= i <= 17
  {
    && ShapeOk(n) && Sized(n) && !n.Leaf? && n.numChildren == i
    && (i <= 4 ==> n.Node4? && forall j :: 0 <= j < i ==> n.keys[j] as nat == j)
    && (5 <= i <= 16 ==> n.Node16? && forall j :: 0 <= j < i ==> n.keys[j] as nat == j)
    && (i == 17 ==> n.Node48? && forall x: u8 :: n.index[x] == if x < 17 then x else NO_SLOT)
    && forall x: u8 :: Child(n, x) == if (x as nat) < i then Some(Entry(x as nat)) else None
  }

  lemma FirstTwo()
    ensures var r := Run(None, Puts(2)); r.Ran? && r.tree.Some? && Rows(r.tree.value, 2)
  {
    assert Puts(1) == [Put([0], 0)] && Puts(2) == [Put([0], 0), Put([1], 1)];
    var t := Step<int>(None, Put([0], 0)).tree;
    assert t == Some(Entry(0));
    var r := Step(t, Put([1], 1));
    assert At([0 as u8], 0) == Some(0 as u8) && At([1 as u8], 0) == Some(1 as u8);
    InsertSized(Entry(0), [1], 1, 0);
    assert Puts(2)[1..] == [Put([1], 1)];
    assert Run(t, Puts(2)[1..]).tree == r.tree;
  }

  /** One more row, through growth at 4 and at 16. */
  lemma NextRow(n: Node<int>, i: nat)
    requires 2 <= i < 17 && Rows(n, i)
    ensures var r := Step(Some(n), Put([i as u8], i)); r.Ran? && r.tree.Some? && Rows(r.tree.value, i + 1)
  {
    hide ChildAt, FindFrom;
    var b := i as u8;
    var key := [b];
    assert Child(n, b).None?;
    if HasByte(n, b) {
      ChildPresent(n, b);
    }
    AddNewAt(n, b, Entry(i));
    InsertSized(n, key, i, 0);
    assert Insert(n, key, i, 0) == Inserted(AddNew(n, b, Entry(i)), None);
    var m := AddNew(n, b, Entry(i));
    if i == 16 {
      forall x: u8 ensures GrownIndex(n.keys, 16)[x] == if x < 16 then x else NO_SLOT {
        GrownIndexFinds(n.keys, 16, x);
        if x < 16 {
          FindUnique(n.keys, 16, x as nat);
        }
      }
    }
    RowChildren(n, m, i);
  }

  lemma RowChildren(n: Node<int>, m: Node<int>, i: nat)
    requires 2 <= i < 17 && Rows(n, i) && !m.Leaf? && Local(m) && ChildAt(n, m, i as u8, Some(Entry(i)))
    ensures forall x: u8 :: Child(m, x) == if (x as nat) < i + 1 then Some(Entry(x as nat)) else None
  {
  }

  lemma {:induction false} Filled(i: nat)
    requires 2 <= i <= 17
    ensures var r := Run(None, Puts(i)); r.Ran? && r.tree.Some? && Rows(r.tree.value, i)
  {
    if i == 2 {
      FirstTwo();
    } else {
      Filled(i - 1);
      var n := Run(None, Puts(i - 1)).tree.value;
      NextRow(n, i - 1);
      var op := Put([(i - 1) as u8], i - 1);
      RunAppend<int>(None, Puts(i - 1), [op]);
      OneStep(Some(n), op);
    }
  }

  lemma OneStep<V>(t: Tree<V>, op: Op<V>)
    requires TreeSized(t)
    ensures Run(t, [op]).Ran? == Step(t, op).Ran?
    ensures Step(t, op).Ran? ==> Run(t, [op]).tree == Step(t, op).tree
  {
    assert [op][1..] == [];
  }

  lemma {:induction false} FilledMap(i: nat, j: nat)
    requires j < i <= 17
    ensures Bound(MapAfter(map[], Puts(i)), [j as u8]) == Some(j)
  {
    var op := Put([(i - 1) as u8], i - 1);
    MapAppend(map[], Puts(i - 1), [op]);
    assert [op][1..] == [];
    assert MapAfter(MapAfter(map[], Puts(i - 1)), [op]) == MapStep(MapAfter(map[], Puts(i - 1)), op);
    if j < i - 1 {
      FilledMap(i - 1, j);
      assert [j as u8] != [(i - 1) as u8] by {
        assert [j as u8][0] != [(i - 1) as u8][0];
      }
    }
  }

  /** The hole, taken: a Node48 with the count at 17, slot 0 empty, and bytes 16 and 17 sharing slot 16. */
  ghost predicate Collided(n: Node<int>) {
    && Sized(n) && n.Node48? && n.numChildren == 17
    && n.index[16] == 16 && n.index[17] == 16 && n.children[16] == Some(Entry(17))
  }

  lemma Collide(n: Node<int>)
    requires Rows(n, 17)
    ensures var r := Run(Some(n), [Del([0]), Put([17], 17)]); r.Ran? && r.tree.Some? && Collided(r.tree.value)
  {
    var del: Op<int>, put := Del([0]), Put([17], 17);
    assert Child(n, 0) == Some(Entry(0)) && n.index[0] == 0;
    var m := Step(Some(n), del).tree.value;
    assert m == DropChild(n, 0);
    assert m.numChildren == 16 && m.index[17] == NO_SLOT && m.index[16] == 16;
    InsertSized(m, [17], 17, 0);
    assert Insert(m, [17], 17, 0) == Inserted(AddNew(m, 17, Entry(17)), None);
    assert Collided(Step(Some(m), put).tree.value);
    assert [del, put] == [del] + [put];
    RunAppend(Some(n), [del], [put]);
    OneStep(Some(n), del);
    OneStep(Some(m), put);
  }

  /** The failing run: the map still binds byte 16, the tree does not. */
  lemma HoleLosesKey()
    ensures var ops := Puts(17) + [Del([0]), Put([17], 17)];
            var r := Run(None, ops);
            r.Ran? && TreeGet(r.tree, [16]).None? && Bound(MapAfter(map[], ops), [16]) == Some(16)
  {
    hide Rows, Step;
    var tail: seq<Op<int>> := [Del([0]), Put([17], 17)];
    Filled(17);
    var n := Run(None, Puts(17)).tree.value;
    Collide(n);
    RunAppend<int>(None, Puts(17), tail);
    CollidedLoses(Run(Some(n), tail).tree.value);
    FilledMap(17, 16);
    MapAppend(map[], Puts(17), tail);
    TailKeeps(MapAfter(map[], Puts(17)));
  }

  lemma CollidedLoses(n: Node<int>)
    requires Collided(n)
    ensures Lookup(n, [16], 0).None?
  {
    assert Child(n, 16) == Some(Entry(17));
    assert [16 as u8][0] != [17 as u8][0];
  }

  lemma TailKeeps(m: map<Bytes, int>)
    requires Bound(m, [16]) == Some(16)
    ensures Bound(MapAfter(m, [Del([0]), Put([17], 17)]), [16]) == Some(16)
  {
    var ops: seq<Op<int>> := [Del([0]), Put([17], 17)];
    assert ops[1..] == [Put([17], 17)] && ops[1..][1..] == [];
    assert MapAfter(m, ops) == MapStep(MapStep(m, ops[0]), ops[1]);
    assert [16 as u8][0] != [17 as u8][0] && [16 as u8][0] != [0 as u8][0];
  }

  /** Removing the newcomer empties the shared slot; inserting under byte 16 then unwraps nothing. */
  lemma HoleStops()
    ensures var ops := Puts(17) + [Del([0]), Put([17], 17)] + [Del([17]), Put([16], 0)];
            Run(None, ops).Stopped?
  {
    hide Rows, Step;
    var tail: seq<Op<int>> := [Del([0]), Put([17], 17)];
    Filled(17);
    var n := Run(None, Puts(17)).tree.value;
    Collide(n);
    RunAppend<int>(None, Puts(17), tail);
    var m := Run(Some(n), tail).tree.value;
    RunAppend<int>(None, Puts(17) + tail, [Del([17]), Put([16], 0)]);
    CollidedStops(m);
  }

  lemma CollidedStops(n: Node<int>)
    requires Collided(n)
    ensures Run(Some(n), [Del([17]), Put([16], 0)]).Stopped?
  {
    var del: Op<int>, put := Del([17]), Put([16], 0);
    assert Child(n, 17) == Some(Entry(17));
    var m := Step(Some(n), del).tree.value;
    assert m == DropChild(n, 17);
    assert HasByte(m, 16) && Child(m, 16).None?;
    assert [del, put] == [del] + [put];
    RunAppend(Some(n), [del], [put]);
    OneStep(Some(n), del);
    OneStep(Some(m), put);
  }
}

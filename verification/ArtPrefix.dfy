// Prefix search and snapshots of the tree (crates/tpx-index/src/art.rs:633-792).

module ArtPrefix {
  import opened Wrappers
  import opened Types
  import opened Art
  import opened ArtProofs
  import opened ArtMap
  import opened ArtRuns

  // ---------- the walk ----------

  /** How many turns the walk over a node's children takes. */
  function Turns<V>(n: Node<V>): nat
    requires Local(n) && !n.Leaf?
  {
    if n.Node4? || n.Node16? then n.numChildren else 256
  }

  /** The child visited on turn `i`: linear nodes by slot, the others by byte. */
  function Turn<V>(n: Node<V>, i: nat): Option<Node<V>>
    requires Local(n) && !n.Leaf? && i < Turns(n)
  {
    match n
    case Node4(_, children, _, _) => children[i]
    case Node16(_, children, _, _) => children[i]
    case Node48(index, children, _, _) => if index[i as u8] == NO_SLOT then None else children[index[i as u8]]
    case Node256(children, _, _) => children[i]
  }

  /** The byte that leads to it. */
  function TurnByte<V>(n: Node<V>, i: nat): u8
    requires Local(n) && !n.Leaf? && i < Turns(n)
  {
    if n.Node4? || n.Node16? then n.keys[i] else i as u8
  }

  lemma TurnIs<V>(n: Node<V>, i: nat)
    requires Local(n) && !n.Leaf? && i < Turns(n)
    ensures Turn(n, i) == Child(n, TurnByte(n, i))
    ensures Turn(n, i).Some? ==> Turn(n, i).value < n
  {
    if n.Node4? || n.Node16? {
      FindUnique(n.keys, n.numChildren, i);
    }
  }

  /** Each byte with a child has exactly one turn. */
  lemma TurnOf<V>(n: Node<V>, b: u8) returns (i: nat)
    requires Local(n) && !n.Leaf? && Child(n, b).Some?
    ensures i < Turns(n) && TurnByte(n, i) == b
    ensures forall j :: 0 <= j < Turns(n) && TurnByte(n, j) == b ==> j == i
  {
    i := if n.Node4? || n.Node16? then FindByte(n.keys, n.numChildren, b).value else b as nat;
  }

  lemma TurnsDiffer<V>(n: Node<V>, i: nat, j: nat)
    requires Local(n) && !n.Leaf? && i < j < Turns(n)
    ensures TurnByte(n, i) != TurnByte(n, j)
  {
  }

  function Own<V>(n: Node<V>): seq<Stored<V>> {
    if n.Leaf? then [Stored(n.key, n.value)] else if n.val.Some? then [n.val.value] else []
  }

  /** `collect_all`: a node's own entry, then its children in turn. */
  function CollectAll<V>(n: Node<V>): seq<Stored<V>>
    requires Sized(n)
    decreases n, 1, 0
  {
    if n.Leaf? then Own(n) else Own(n) + CollectFrom(n, 0)
  }

  function CollectFrom<V>(n: Node<V>, i: nat): seq<Stored<V>>
    requires Sized(n) && !n.Leaf? && i <= Turns(n)
    decreases n, 0, Turns(n) - i
  {
    if i == Turns(n) then []
    else
      TurnIs(n, i);
      (if Turn(n, i).Some? then CollectAll(Turn(n, i).value) else []) + CollectFrom(n, i + 1)
  }

  /** `collect_prefix`: down the prefix byte by byte, then everything below. */
  function CollectPrefix<V>(n: Node<V>, prefix: Bytes, depth: nat): seq<Stored<V>>
    requires Sized(n)
    decreases n
  {
    if depth >= |prefix| then CollectAll(n)
    else
      (if Own(n) != [] && prefix <= Own(n)[0].key then Own(n) else [])
      + if n.Leaf? || Child(n, prefix[depth]).None? then []
        else CollectPrefix(Child(n, prefix[depth]).value, prefix, depth + 1)
  }

  function TreePrefix<V>(t: Tree<V>, prefix: Bytes): seq<Stored<V>>
    requires TreeSized(t)
  {
    if t.None? then [] else CollectPrefix(t.value, prefix, 0)
  }

  // ---------- exactly once ----------

  ghost predicate OnceEach<V>(s: seq<Stored<V>>) {
    forall i, j :: 0 <= i < j < |s| ==> s[i].key != s[j].key
  }

  /** Every entry of `s` is bound in `n` below `path`, under a key starting with `prefix`, and none is missing. */
  ghost predicate ListsBelow<V(!new)>(s: seq<Stored<V>>, n: Node<V>, path: Bytes, prefix: Bytes)
    requires Sized(n)
  {
    forall e: Stored<V> :: e in s <==> path <= e.key && prefix <= e.key && Lookup(n, e.key, |path|) == Some(e.value)
  }

  /** The same for the entries below `n` reached on turn `i` or later. */
  ghost predicate ListsFrom<V(!new)>(s: seq<Stored<V>>, n: Node<V>, path: Bytes, i: nat)
    requires Sized(n) && !n.Leaf? && i <= Turns(n)
  {
    forall e: Stored<V> :: e in s <==> exists j :: i <= j < Turns(n) && path + [TurnByte(n, j)] <= e.key
                                                   && Lookup(n, e.key, |path|) == Some(e.value)
  }

  lemma OnceAppend<V>(a: seq<Stored<V>>, b: seq<Stored<V>>)
    requires OnceEach(a) && OnceEach(b) && forall x, y :: x in a && y in b ==> x.key != y.key
    ensures OnceEach(a + b)
  {
  }

  /** One more turn in front of the rest. */
  lemma TurnAppend<V(!new)>(n: Node<V>, path: Bytes, i: nat, s: seq<Stored<V>>, rest: seq<Stored<V>>)
    requires Sized(n) && Local(n) && !n.Leaf? && i < Turns(n) && OnceEach(s) && OnceEach(rest) && ListsFrom(rest, n, path, i + 1)
    requires Turn(n, i) == Child(n, TurnByte(n, i))
    requires Turn(n, i).None? ==> s == []
    requires Turn(n, i).Some? ==> ListsBelow(s, Turn(n, i).value, path + [TurnByte(n, i)], [])
    ensures OnceEach(s + rest) && ListsFrom(s + rest, n, path, i)
  {
    hide Lookup, Turn, TurnByte, Child, Turns, Local, Sized;
    var b := TurnByte(n, i);
    forall e: Stored<V> ensures e in s <==> path + [b] <= e.key && Lookup(n, e.key, |path|) == Some(e.value) {
      if path + [b] <= e.key {
        LookupThrough(n, path, b, e.key);
      }
    }
    forall x, y | x in s && y in rest ensures x.key != y.key {
      var j :| i + 1 <= j < Turns(n) && path + [TurnByte(n, j)] <= y.key && Lookup(n, y.key, |path|) == Some(y.value);
      TurnsDiffer(n, i, j);
      assert x.key[|path|] == b && y.key[|path|] == TurnByte(n, j);
    }
    OnceAppend(s, rest);
    forall e: Stored<V>
      ensures e in s + rest <==> exists j :: i <= j < Turns(n) && path + [TurnByte(n, j)] <= e.key
                                             && Lookup(n, e.key, |path|) == Some(e.value)
    {
      if e in s {
        assert path + [TurnByte(n, i)] <= e.key;
      }
    }
  }

  lemma {:induction false} CollectFromLists<V(!new)>(n: Node<V>, path: Bytes, i: nat)
    requires WF(n, path) && Sized(n) && !n.Leaf? && i <= Turns(n)
    ensures OnceEach(CollectFrom(n, i)) && ListsFrom(CollectFrom(n, i), n, path, i)
    decreases n, 0, Turns(n) - i
  {
    hide Lookup, Turn, TurnByte, Child, Turns, Local, ShapeOk, OnceEach, ListsBelow;
    if i == Turns(n) {
      NoTurns(n, path);
    } else {
      var b := TurnByte(n, i);
      TurnIs(n, i);
      CollectFromLists(n, path, i + 1);
      if Turn(n, i).Some? {
        CollectAllLists(Turn(n, i).value, path + [b]);
        TurnAppend(n, path, i, CollectAll(Turn(n, i).value), CollectFrom(n, i + 1));
      } else {
        NoneOnce<V>();
        TurnAppend(n, path, i, [], CollectFrom(n, i + 1));
      }
    }
  }

  lemma NoneOnce<V>()
    ensures OnceEach<V>([])
  {
  }

  lemma NoTurns<V(!new)>(n: Node<V>, path: Bytes)
    requires Sized(n) && !n.Leaf?
    ensures OnceEach<V>([]) && ListsFrom([], n, path, Turns(n))
  {
  }

  /** Everything below a node, each binding once. */
  lemma {:induction false} CollectAllLists<V(!new)>(n: Node<V>, path: Bytes)
    requires WF(n, path) && Sized(n)
    ensures OnceEach(CollectAll(n)) && ListsBelow(CollectAll(n), n, path, [])
    decreases n, 1, 0
  {
    if n.Leaf? {
      LeafLists(n, path);
    } else {
      hide CollectFrom, WF, Sized, OnceEach;
      CollectFromLists(n, path, 0);
      OwnFirst(n, path, CollectFrom(n, 0));
    }
  }

  lemma LeafLists<V(!new)>(n: Node<V>, path: Bytes)
    requires n.Leaf? && WF(n, path) && Sized(n)
    ensures OnceEach(Own(n)) && ListsBelow(Own(n), n, path, [])
  {
  }

  lemma OwnFirst<V(!new)>(n: Node<V>, path: Bytes, rest: seq<Stored<V>>)
    requires WF(n, path) && Sized(n) && !n.Leaf? && OnceEach(rest) && ListsFrom(rest, n, path, 0)
    ensures OnceEach(Own(n) + rest) && ListsBelow(Own(n) + rest, n, path, [])
  {
    hide Turn, TurnByte, Child, Turns, ShapeOk, Local;
    forall e | e in Own(n) ensures e.key == path {
    }
    forall e | e in rest ensures |e.key| > |path| {
    }
    OnceAppend(Own(n), rest);
    forall e: Stored<V> ensures e in Own(n) + rest <==> path <= e.key && Lookup(n, e.key, |path|) == Some(e.value) {
      OwnOrBelow(n, path, rest, e);
    }
  }

  lemma OwnOrBelow<V(!new)>(n: Node<V>, path: Bytes, rest: seq<Stored<V>>, e: Stored<V>)
    requires WF(n, path) && Sized(n) && !n.Leaf? && ListsFrom(rest, n, path, 0)
    ensures e in Own(n) + rest <==> path <= e.key && Lookup(n, e.key, |path|) == Some(e.value)
  {
    hide Turn, TurnByte, Turns, ShapeOk, Local;
    if path <= e.key && Lookup(n, e.key, |path|) == Some(e.value) {
      if |e.key| == |path| {
        assert e.key == path;
      } else {
        var b := e.key[|path|];
        var j := TurnOf(n, b);
        PathStep(path, e.key);
        assert path + [TurnByte(n, j)] <= e.key;
      }
    }
  }

  /** Prefix search below a node: each binding whose key starts with the prefix, once, and nothing else. */
  lemma {:induction false} CollectPrefixLists<V(!new)>(n: Node<V>, path: Bytes, prefix: Bytes)
    requires WF(n, path) && Sized(n) && path <= prefix
    ensures var s := CollectPrefix(n, prefix, |path|); OnceEach(s) && ListsBelow(s, n, path, prefix)
    decreases n
  {
    hide CollectAll, Child, WF, Sized, Lookup, OnceEach, ListsBelow, Own, Local, ShapeOk;
    if |path| == |prefix| {
      assert path == prefix;
      CollectAllLists(n, path);
      AllBelow(CollectAll(n), n, path);
    } else if n.Leaf? {
      LeafPrefix(n, path, prefix);
      var s := if prefix <= n.key then Own(n) else [];
      assert CollectPrefix(n, prefix, |path|) == s + [] == s;
    } else {
      var b := prefix[|path|];
      InnerParts(n, path, b);
      PathStep(path, prefix);
      NoneOnce<V>();
      if Child(n, b).Some? {
        CollectPrefixLists(Child(n, b).value, path + [b], prefix);
        var s := CollectPrefix(Child(n, b).value, prefix, |path| + 1);
        assert CollectPrefix(n, prefix, |path|) == [] + s == s;
      }
      PrefixThrough(n, path, prefix, CollectPrefix(n, prefix, |path|));
    }
  }

  lemma AllBelow<V(!new)>(s: seq<Stored<V>>, n: Node<V>, path: Bytes)
    requires Sized(n) && ListsBelow(s, n, path, [])
    ensures ListsBelow(s, n, path, path)
  {
  }

  lemma LeafPrefix<V(!new)>(n: Node<V>, path: Bytes, prefix: Bytes)
    requires n.Leaf? && Sized(n) && path <= prefix
    ensures var s := if prefix <= n.key then Own(n) else [];
            Own(n) != [] && Own(n)[0].key == n.key && OnceEach(s) && ListsBelow(s, n, path, prefix)
  {
  }

  /** What an inner node's well-formedness says about its own entry and about one child. */
  lemma InnerParts<V>(n: Node<V>, path: Bytes, b: u8)
    requires WF(n, path) && !n.Leaf?
    ensures Sized(n) && Local(n) && (Own(n) != [] ==> Own(n)[0].key == path)
    ensures Child(n, b).Some? ==> WF(Child(n, b).value, path + [b]) && Sized(Child(n, b).value)
  {
    WFSized(n, path);
  }

  lemma PrefixThrough<V(!new)>(n: Node<V>, path: Bytes, prefix: Bytes, s: seq<Stored<V>>)
    requires Sized(n) && !n.Leaf? && path <= prefix && |path| < |prefix|
    requires var c := Child(n, prefix[|path|]);
             (c.None? ==> s == []) && (c.Some? ==> ListsBelow(s, c.value, path + [prefix[|path|]], prefix))
    ensures ListsBelow(s, n, path, prefix)
  {
    hide Lookup, Child, Local, Sized;
    var b := prefix[|path|];
    forall e: Stored<V> ensures e in s <==> path <= e.key && prefix <= e.key && Lookup(n, e.key, |path|) == Some(e.value) {
      PathStep(path, prefix);
      if prefix <= e.key {
        assert path + [b] <= e.key;
        LookupThrough(n, path, b, e.key);
      }
    }
  }

  /**
   * `get_prefix` on a well-formed tree: exactly the bindings whose key starts with the prefix, once each.
   * The empty prefix lists the whole tree; keys stored as values of inner nodes are included.
   */
  lemma PrefixIsExact<V(!new)>(t: Tree<V>, prefix: Bytes)
    requires TreeSized(t) && TreeOk(t)
    ensures var s := TreePrefix(t, prefix);
            OnceEach(s) && forall e: Stored<V> :: e in s <==> prefix <= e.key && TreeGet(t, e.key) == Some(e.value)
  {
    hide CollectPrefix, Lookup, WF, Sized;
    if t.Some? {
      CollectPrefixLists(t.value, [], prefix);
    }
  }

  /** After any safe run, a prefix search lists exactly the map's bindings with that prefix. */
  lemma RunPrefix<V(!new)>(ops: seq<Op<V>>, prefix: Bytes)
    requires RunSafe(None, ops)
    ensures var r := Run(None, ops);
            && r.Ran? && OnceEach(TreePrefix(r.tree, prefix))
            && forall e: Stored<V> :: e in TreePrefix(r.tree, prefix)
                                      <==> prefix <= e.key && Bound(MapAfter(map[], ops), e.key) == Some(e.value)
  {
    hide Run, RunSafe, TreePrefix, OnceEach;
    RunsAreMaps<V>(None, map[], ops);
    PrefixIsExact(Run(None, ops).tree, prefix);
  }

  // ---------- snapshots ----------

  /** A snapshot's `get`: the first item with the key. */
  function FirstWith<V>(items: seq<Stored<V>>, key: Bytes): (r: Option<V>)
    ensures r.Some? ==> Stored(key, r.value) in items
    ensures r.None? ==> forall e :: e in items ==> e.key != key
  {
    if items == [] then None
    else if items[0].key == key then Some(items[0].value)
    else FirstWith(items[1..], key)
  }

  /** A snapshot answers like the tree did when it was taken. */
  lemma SnapshotAgrees<V(!new)>(t: Tree<V>, key: Bytes)
    requires TreeSized(t) && TreeOk(t)
    ensures FirstWith(TreePrefix(t, []), key) == TreeGet(t, key)
  {
    hide TreePrefix, TreeGet;
    PrefixIsExact(t, []);
    if TreeGet(t, key).Some? {
      assert Stored(key, TreeGet(t, key).value) in TreePrefix(t, []);
    }
  }

  /** A snapshot's prefix query: the items whose key starts with the prefix. */
  function WithPrefix<V>(items: seq<Stored<V>>, prefix: Bytes): seq<Stored<V>> {
    if items == [] then []
    else (if prefix <= items[0].key then [items[0]] else []) + WithPrefix(items[1..], prefix)
  }

  lemma NoneWithPrefix<V>(prefix: Bytes)
    ensures WithPrefix<V>([], prefix) == []
  {
  }

  lemma WithPrefixFirst<V>(items: seq<Stored<V>>, i: nat, prefix: Bytes)
    requires i < |items|
    ensures WithPrefix(items[i..], prefix)
            == (if prefix <= items[i].key then [items[i]] else []) + WithPrefix(items[i + 1..], prefix)
  {
    assert items[i..][1..] == items[i + 1..];
  }

  /** `found` are the items at `places`, in order, and those are the places of all keys with the prefix. */
  ghost predicate Picks<V>(items: seq<Stored<V>>, prefix: Bytes, places: seq<nat>, found: seq<Stored<V>>) {
    && |places| == |found|
    && (forall j, k :: 0 <= j < k < |places| ==> places[j] < places[k])
    && (forall k :: 0 <= k < |places| ==> places[k] < |items| && found[k] == items[places[k]])
    && (forall i: nat | i < |items| :: i in places <==> |prefix| <= |items[i].key| && items[i].key[..|prefix|] == prefix)
  }

  ghost function Places<V>(items: seq<Stored<V>>, prefix: Bytes): (places: seq<nat>)
    ensures forall k :: 0 <= k < |places| ==> places[k] < |items|
    decreases |items|
  {
    if items == [] then []
    else
      var n := |items| - 1;
      Places(items[..n], prefix) + if prefix <= items[n].key then [n] else []
  }

  lemma {:induction false} WithPrefixLast<V>(items: seq<Stored<V>>, prefix: Bytes)
    requires items != []
    ensures var n := |items| - 1;
            WithPrefix(items, prefix) == WithPrefix(items[..n], prefix) + if prefix <= items[n].key then [items[n]] else []
    decreases |items|
  {
    var n := |items| - 1;
    if n > 0 {
      WithPrefixLast(items[1..], prefix);
      assert items[..n][1..] == items[1..][..n - 1];
    }
  }

  lemma PicksMore<V>(init: seq<Stored<V>>, last: Stored<V>, prefix: Bytes, places: seq<nat>, found: seq<Stored<V>>)
    requires Picks(init, prefix, places, found)
    ensures Picks(init + [last], prefix, places + if prefix <= last.key then [|init|] else [],
                  found + if prefix <= last.key then [last] else [])
  {
    var items := init + [last];
    forall i: nat | i < |init| ensures items[i] == init[i] && (i in places <==> i in places + [|init|]) {
    }
  }

  lemma PicksNone<V>(prefix: Bytes)
    ensures Picks<V>([], prefix, Places<V>([], prefix), WithPrefix<V>([], prefix))
  {
  }

  lemma PlacesLast<V>(items: seq<Stored<V>>, prefix: Bytes)
    requires items != []
    ensures var n := |items| - 1;
            Places(items, prefix) == Places(items[..n], prefix) + if prefix <= items[n].key then [n] else []
  {
  }

  lemma {:induction false} WithPrefixPicks<V>(items: seq<Stored<V>>, prefix: Bytes)
    ensures Picks(items, prefix, Places(items, prefix), WithPrefix(items, prefix))
    decreases |items|
  {
    hide *;
    if items == [] {
      PicksNone<V>(prefix);
    } else {
      var n := |items| - 1;
      var init, last := items[..n], items[n];
      WithPrefixLast(items, prefix);
      PlacesLast(items, prefix);
      WithPrefixPicks(init, prefix);
      PicksMore(init, last, prefix, Places(init, prefix), WithPrefix(init, prefix));
      assert init + [last] == items;
    }
  }

  /** A snapshot's prefix query lists what the tree's own would have listed when it was taken. */
  lemma SnapshotPrefixAgrees<V(!new)>(t: Tree<V>, prefix: Bytes)
    requires TreeSized(t) && TreeOk(t)
    ensures var s := WithPrefix(TreePrefix(t, []), prefix);
            OnceEach(s) && forall e: Stored<V> :: e in s <==> prefix <= e.key && TreeGet(t, e.key) == Some(e.value)
  {
    hide TreePrefix, TreeGet, WithPrefix;
    PrefixIsExact(t, []);
    var items := TreePrefix(t, []);
    var places, s := Places(items, prefix), WithPrefix(items, prefix);
    WithPrefixPicks(items, prefix);
    forall e: Stored<V> ensures e in s <==> e in items && prefix <= e.key {
      PickedIs(items, prefix, places, s, e);
    }
  }

  lemma PickedIs<V>(items: seq<Stored<V>>, prefix: Bytes, places: seq<nat>, s: seq<Stored<V>>, e: Stored<V>)
    requires Picks(items, prefix, places, s)
    ensures e in s <==> e in items && prefix <= e.key
  {
    if e in s {
      var k :| 0 <= k < |s| && s[k] == e;
      assert places[k] in places;
    }
    if e in items && prefix <= e.key {
      var i :| 0 <= i < |items| && items[i] == e;
      assert i in places;
      var k :| 0 <= k < |places| && places[k] == i;
      assert s[k] == e;
    }
  }
}

// The in-memory table of contents: an append-only list of entries and an index from key hash to
// the last entry with that hash (crates/tpx-index/src/toc.rs).

module TocIndex {
  import opened Wrappers
  import opened Types
  import opened LittleEndian
  import opened AttrsFormat
  import opened TocFormat

  // ---------- what the table means ----------

  /** The last entry of a key, if that one is not tombstoned: the key's current value. */
  function Find(es: seq<TocEntry>, key: Bytes): (r: Option<TocEntry>)
    ensures r.Some? ==> r.value in es && r.value.key == key && r.value.tombstone == 0
  {
    if |es| == 0 then None
    else
      var e := es[|es| - 1];
      if e.key != key then Find(es[..|es| - 1], key)
      else if e.tombstone == 0 then Some(e) else None
  }

  /** The index built by inserting each entry's hash in order; positions are cast to u32. */
  function IndexOf(es: seq<TocEntry>): map<u64, u32> {
    if |es| == 0 then map[]
    else IndexOf(es[..|es| - 1])[es[|es| - 1].keyHash := (|es| - 1) % U32_LIMIT]
  }

  /** What a lookup through the index computes. */
  function LookupIn(es: seq<TocEntry>, index: map<u64, u32>, hash: u64, key: Bytes): Option<TocEntry> {
    if hash !in index || index[hash] >= |es| then None
    else
      var e := es[index[hash]];
      if e.key == key && e.tombstone == 0 then Some(e) else None
  }

  function Tombstoned(es: seq<TocEntry>, key: Bytes): (r: seq<TocEntry>)
    ensures |r| == |es|
  {
    seq(|es|, i requires 0 <= i < |es| => if es[i].key == key then es[i].(tombstone := 1) else es[i])
  }

  /** The live non-empty keys not yet seen, in the order of their last entries. */
  function KeysFrom(es: seq<TocEntry>, seen: set<Bytes>): seq<Bytes> {
    if |es| == 0 then []
    else
      var init, e := es[..|es| - 1], es[|es| - 1];
      if e.key == [] || e.key in seen then KeysFrom(init, seen)
      else KeysFrom(init, seen + {e.key}) + (if e.tombstone == 0 then [e.key] else [])
  }

  /** The current entries whose key starts with `prefix`, latest first. */
  function PrefixFrom(es: seq<TocEntry>, prefix: Bytes, seen: set<Bytes>): seq<TocEntry> {
    if |es| == 0 then []
    else
      var init, e := es[..|es| - 1], es[|es| - 1];
      if !(prefix <= e.key) || e.key in seen then PrefixFrom(init, prefix, seen)
      else (if e.tombstone == 0 then [e] else []) + PrefixFrom(init, prefix, seen + {e.key})
  }

  // ---------- the table in memory ----------

  class Toc {
    const xxh64: Bytes -> u64
    var entries: seq<TocEntry>
    var hashIndex: map<u64, u32>

    ghost predicate Valid()
      reads this
    {
      hashIndex == IndexOf(entries)
    }

    /** `Toc::build`: one index insertion per entry, in order. */
    constructor Build(xxh64: Bytes -> u64, entries: seq<TocEntry>)
      ensures Valid() && this.entries == entries && this.xxh64 == xxh64
    {
      var index: map<u64, u32> := map[];
      for idx := 0 to |entries|
        invariant index == IndexOf(entries[..idx])
      {
        assert entries[..idx + 1][..idx] == entries[..idx];
        index := index[entries[idx].keyHash := idx % U32_LIMIT];
      }
      assert entries[..|entries|] == entries;
      this.xxh64 := xxh64;
      this.entries := entries;
      this.hashIndex := index;
    }

    method Lookup(key: Bytes) returns (r: Option<TocEntry>)
      ensures r == LookupIn(entries, hashIndex, xxh64(key), key)
    {
      var hash := xxh64(key);
      if hash !in hashIndex {
        return None;
      }
      var idx := hashIndex[hash];
      if idx >= |entries| {
        return None;
      }
      var entry := entries[idx];
      if entry.key == key && entry.tombstone == 0 {
        return Some(entry);
      }
      return None;
    }

    method LookupPrefix(prefix: Bytes) returns (result: seq<TocEntry>)
      ensures result == PrefixFrom(entries, prefix, {})
    {
      var seen: set<Bytes> := {};
      result := [];
      var i := |entries|;
      assert entries[..i] == entries;
      while i > 0
        invariant 0 <= i <= |entries|
        invariant result + PrefixFrom(entries[..i], prefix, seen) == PrefixFrom(entries, prefix, {})
      {
        i := i - 1;
        assert entries[..i + 1][..i] == entries[..i];
        var entry := entries[i];
        if prefix <= entry.key && entry.key !in seen {
          seen := seen + {entry.key};
          if entry.tombstone == 0 {
            result := result + [entry];
          }
        }
      }
    }

    method AddEntry(entry: TocEntry)
      requires Valid()
      modifies this
      ensures Valid() && entries == old(entries) + [entry]
    {
      var idx := |entries| % U32_LIMIT;
      hashIndex := hashIndex[entry.keyHash := idx];
      entries := entries + [entry];
      assert entries[..|entries| - 1] == old(entries);
    }

    method Tombstone(key: Bytes)
      requires Valid()
      modifies this
      ensures Valid() && entries == Tombstoned(old(entries), key)
    {
      var i := 0;
      while i < |entries|
        invariant 0 <= i <= |entries| == |old(entries)|
        invariant forall j :: 0 <= j < i ==> entries[j] == Tombstoned(old(entries), key)[j]
        invariant forall j :: i <= j < |entries| ==> entries[j] == old(entries)[j]
        invariant hashIndex == old(hashIndex)
      {
        if entries[i].key == key {
          entries := entries[i := entries[i].(tombstone := 1)];
        }
        i := i + 1;
      }
      IndexIgnoresTombstones(old(entries), entries);
    }

    method Reset()
      modifies this
      ensures Valid() && entries == []
    {
      entries := [];
      hashIndex := map[];
    }

    method Serialize() returns (buf: Bytes)
      ensures buf == EncodeToc(entries)
    {
      var body: Bytes := [];
      for i := 0 to |entries|
        invariant body == EncodeEntries(entries[..i])
      {
        assert entries[..i + 1][..i] == entries[..i];
        var record := WriteEntry(entries[i]);
        body := body + record;
      }
      assert entries[..|entries|] == entries;
      buf := Encode(|entries|, 4) + body;
    }
  }

  method WriteEntry(entry: TocEntry) returns (buf: Bytes)
    ensures buf == EncodeEntry(entry)
  {
    hide Encode, EncodeMap, EncodeOne;
    var dims: Bytes := [];
    for i := 0 to |entry.shape|
      invariant dims == EncodeU32s(entry.shape[..i])
    {
      assert entry.shape[..i + 1][..i] == entry.shape[..i];
      dims := dims + Encode(entry.shape[i], 4);
    }
    assert entry.shape[..|entry.shape|] == entry.shape;
    var attrsBytes := WriteAttrs(entry.attrs);
    var refs: Bytes := [];
    for i := 0 to |entry.chunkRefs|
      invariant refs == EncodeRefs(entry.chunkRefs[..i])
    {
      assert entry.chunkRefs[..i + 1][..i] == entry.chunkRefs[..i];
      refs := refs + EncodeRef(entry.chunkRefs[i]);
    }
    assert entry.chunkRefs[..|entry.chunkRefs|] == entry.chunkRefs;
    var typed := Encode(DTypeCode(entry.dtype) as nat, 1) + (Encode(|entry.shape|, 1) + dims);
    var tail := Encode(|attrsBytes|, 4) + (attrsBytes
      + (Encode(|entry.chunkRefs|, 2) + (refs + Encode(entry.tombstone as nat, 1))));
    buf := Encode(entry.keyHash, 8) + (Encode(|entry.key|, 2) + (entry.key + (typed + tail)));
  }

  /** Rebuilds the attribute map through `set`, which drops values that are too large. */
  method WriteAttrs(attrs: AttrMap) returns (buf: Bytes)
    ensures buf == EncodeMap(Kept(attrs))
  {
    var obj := new Attrs();
    var left := attrs.Keys;
    while left != {}
      invariant left <= attrs.Keys
      invariant obj.entries == map k | k in Kept(attrs) && k !in left :: attrs[k]
      decreases left
    {
      var k :| k in left;
      var stored := obj.Set(k, attrs[k]);
      left := left - {k};
    }
    assert obj.entries == Kept(attrs);
    buf := obj.Serialize();
  }

  /** The reader's loop over entries, then `Toc::build`. */
  method Deserialize(xxh64: Bytes -> u64, buf: Bytes) returns (r: Result<Toc, TpxError>)
    ensures r.Success? ==> fresh(r.value) && r.value.Valid() && r.value.xxh64 == xxh64
                           && ParseToc(buf) == Success(r.value.entries)
    ensures r.Failure? ==> ParseToc(buf) == Failure(r.error)
  {
    hide ReadEntry, ReadU32;
    var numEntries := ReadU32(buf, 0);
    if numEntries.Failure? {
      return Failure(numEntries.error);
    }
    var entries: seq<TocEntry> := [];
    var pos: nat := 4;
    for i := 0 to numEntries.value
      invariant ReadEntries(buf, 4, i) == Success((entries, pos))
    {
      var e := ReadEntry(buf, pos);
      if e.Failure? {
        ReadEntriesFailure(buf, 4, i, numEntries.value, e.error);
        return Failure(e.error);
      }
      entries, pos := entries + [e.value.0], e.value.1;
    }
    var toc := new Toc.Build(xxh64, entries);
    return Success(toc);
  }

  /** The first entry that cannot be read decides the error of the whole read. */
  lemma {:induction false} ReadEntriesFailure(buf: Bytes, pos: nat, i: nat, n: nat, error: TpxError)
    requires i < n && ReadEntries(buf, pos, i).Success?
    requires ReadEntry(buf, ReadEntries(buf, pos, i).value.1) == Failure(error)
    ensures ReadEntries(buf, pos, n) == Failure(error)
  {
    hide ReadEntry;
    if i < n - 1 {
      ReadEntriesFailure(buf, pos, i, n - 1, error);
    }
  }

  // ---------- properties ----------

  lemma {:induction false} IndexIgnoresTombstones(a: seq<TocEntry>, b: seq<TocEntry>)
    requires |a| == |b| && forall i :: 0 <= i < |a| ==> a[i].keyHash == b[i].keyHash
    ensures IndexOf(a) == IndexOf(b)
  {
    if |a| > 0 {
      IndexIgnoresTombstones(a[..|a| - 1], b[..|b| - 1]);
    }
  }

  /** The last entry filed under `hash`, the one the index leads to. */
  function LastFiled(es: seq<TocEntry>, hash: u64): (r: Option<nat>)
    ensures r.Some? ==> r.value < |es|
  {
    if |es| == 0 then None
    else if es[|es| - 1].keyHash == hash then Some(|es| - 1)
    else LastFiled(es[..|es| - 1], hash)
  }

  lemma {:induction false} IndexIsLast(es: seq<TocEntry>, hash: u64)
    requires |es| <= U32_LIMIT
    ensures hash in IndexOf(es) <==> LastFiled(es, hash).Some?
    ensures hash in IndexOf(es) ==> IndexOf(es)[hash] == LastFiled(es, hash).value
  {
    if |es| > 0 {
      IndexIsLast(es[..|es| - 1], hash);
    }
  }

  /** A later entry with the same hash but another key hides the entries of `key`. */
  predicate Shadowed(es: seq<TocEntry>, hash: u64, key: Bytes) {
    |es| > 0 && es[|es| - 1].key != key
    && (es[|es| - 1].keyHash == hash || Shadowed(es[..|es| - 1], hash, key))
  }

  /**
   * While entries are filed under the hash of their own key and fit a 32-bit position, a lookup
   * returns the key's current entry exactly when no colliding later entry hides it.
   */
  lemma {:induction false} LookupIsFind(es: seq<TocEntry>, hash: u64, key: Bytes)
    requires |es| <= U32_LIMIT
    requires forall e :: e in es && e.key == key ==> e.keyHash == hash
    ensures LookupIn(es, IndexOf(es), hash, key) == Find(es, key)
            <==> Find(es, key).None? || !Shadowed(es, hash, key)
  {
    IndexIsLast(es, hash);
    FiledLookup(es, hash, key);
  }

  /** The same statement about the last entry filed, by induction from the end of the table. */
  lemma {:induction false} FiledLookup(es: seq<TocEntry>, hash: u64, key: Bytes)
    requires forall e :: e in es && e.key == key ==> e.keyHash == hash
    ensures var i := LastFiled(es, hash);
            var r := if i.Some? && es[i.value].key == key && es[i.value].tombstone == 0
                     then Some(es[i.value]) else None;
            r == Find(es, key) <==> Find(es, key).None? || !Shadowed(es, hash, key)
  {
    if |es| > 0 {
      FiledLookup(es[..|es| - 1], hash, key);
    }
  }

  ghost predicate Unique<T>(s: seq<T>) {
    forall i, j :: 0 <= i < j < |s| ==> s[i] != s[j]
  }

  /** `keys` lists exactly the live non-empty keys, each once. */
  lemma {:induction false} KeysAreLive(es: seq<TocEntry>, seen: set<Bytes>)
    ensures forall k :: k in KeysFrom(es, seen) <==> k != [] && k !in seen && Find(es, k).Some?
    ensures Unique(KeysFrom(es, seen))
  {
    if |es| > 0 {
      var init, e := es[..|es| - 1], es[|es| - 1];
      KeysAreLive(init, seen);
      KeysAreLive(init, seen + {e.key});
    }
  }

  ghost predicate DistinctKeys(es: seq<TocEntry>) {
    forall i, j :: 0 <= i < j < |es| ==> es[i].key != es[j].key
  }

  lemma ConsDistinct(e: TocEntry, rest: seq<TocEntry>)
    requires DistinctKeys(rest) && forall x :: x in rest ==> x.key != e.key
    ensures DistinctKeys([e] + rest)
  {
    forall i, j | 0 <= i < j < 1 + |rest| ensures ([e] + rest)[i].key != ([e] + rest)[j].key {
      assert ([e] + rest)[j] == rest[j - 1] && rest[j - 1] in rest;
    }
  }

  /** A prefix lookup returns exactly the current entries with that prefix, each key once. */
  lemma {:induction false} PrefixIsFind(es: seq<TocEntry>, prefix: Bytes, seen: set<Bytes>)
    ensures forall e :: e in PrefixFrom(es, prefix, seen)
                        <==> prefix <= e.key && e.key !in seen && Find(es, e.key) == Some(e)
    ensures DistinctKeys(PrefixFrom(es, prefix, seen))
  {
    if |es| > 0 {
      var init, e := es[..|es| - 1], es[|es| - 1];
      PrefixIsFind(init, prefix, seen);
      PrefixIsFind(init, prefix, seen + {e.key});
      var rest := PrefixFrom(init, prefix, seen + {e.key});
      ConsDistinct(e, rest);
      assert [] + rest == rest;
    }
  }
}

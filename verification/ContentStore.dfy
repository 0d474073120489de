// Reference-counted chunks by content hash (crates/tpx-dedup/src/content_store.rs).

module ContentStoreModel {
  import opened Wrappers
  import opened Types

  datatype ContentEntry = ContentEntry(shardId: u16, chunkOffset: nat, chunkLen: u32, refcount: u32)

  /** The counter of a hash; 0 when nothing is stored under it. */
  function Count(entries: map<u128, ContentEntry>, h: u128): u32 {
    if h in entries then entries[h].refcount else 0
  }

  /** The chunks whose counter has come back to zero. */
  function GcCandidates(entries: map<u128, ContentEntry>): map<u128, ContentEntry> {
    map h | h in entries && entries[h].refcount == 0 :: entries[h]
  }

  class ContentStore {
    var entries: map<u128, ContentEntry>

    constructor ()
      ensures entries == map[]
    {
      entries := map[];
    }

    method Lookup(h: u128) returns (r: Option<ContentEntry>)
      ensures r == if h in entries then Some(entries[h]) else None
    {
      r := if h in entries then Some(entries[h]) else None;
    }

    /** Keeps an entry that is already there. */
    method Insert(h: u128, entry: ContentEntry) returns (inserted: bool)
      modifies this
      ensures inserted == (h !in old(entries))
      ensures entries == if inserted then old(entries)[h := entry] else old(entries)
    {
      if h in entries {
        return false;
      }
      entries := entries[h := entry];
      return true;
    }

    method AddRef(h: u128) returns (r: Result<u32, TpxError>)
      modifies this
      ensures h !in old(entries) ==> r == Failure(KeyNotFound) && entries == old(entries)
      ensures h in old(entries) ==>
                r == Success(Count(entries, h))
                && entries == old(entries)[h := old(entries)[h].(refcount := Wrap32(Count(old(entries), h) as int + 1))]
    {
      if h !in entries {
        return Failure(KeyNotFound);
      }
      var prev := entries[h].refcount;
      entries := entries[h := entries[h].(refcount := Wrap32(prev as int + 1))];
      return Success(Wrap32(prev as int + 1));
    }

    /** The stored counter wraps below zero although the returned one saturates. */
    method Release(h: u128) returns (r: Result<u32, TpxError>)
      modifies this
      ensures h !in old(entries) ==> r == Failure(KeyNotFound) && entries == old(entries)
      ensures h in old(entries) ==>
                entries == old(entries)[h := old(entries)[h].(refcount := Wrap32(Count(old(entries), h) as int - 1))]
      ensures h in old(entries) ==>
                r == Success(if Count(old(entries), h) == 0 then 0 else Count(old(entries), h) - 1)
    {
      if h !in entries {
        return Failure(KeyNotFound);
      }
      var prev := entries[h].refcount;
      entries := entries[h := entries[h].(refcount := Wrap32(prev as int - 1))];
      return Success(if prev == 0 then 0 else prev - 1);
    }

    method Remove(h: u128) returns (r: Option<ContentEntry>)
      modifies this
      ensures r == if h in old(entries) then Some(old(entries)[h]) else None
      ensures entries == old(entries) - {h}
    {
      r := if h in entries then Some(entries[h]) else None;
      entries := entries - {h};
    }
  }
}

// Version chains and their retention policies (crates/tpx-version/src/chain.rs).

module VersionChainModel {
  import opened Wrappers
  import opened Types
  import opened AttrsFormat

  datatype RetentionPolicy = KeepLatest | KeepLastN(n: u32) | KeepForever

  datatype VersionEntry = VersionEntry(
    versionId: nat, dtype: DTypeId, shape: seq<u32>, attrs: AttrMap, chunkHashes: seq<u128>)

  datatype VersionChain = VersionChain(key: Bytes, versions: seq<VersionEntry>, retention: RetentionPolicy)

  /** How many versions a policy keeps. */
  function Limit(p: RetentionPolicy): (limit: Option<nat>)
    ensures limit.Some? ==> limit.value >= 1
  {
    match p
    case KeepLatest => Some(1)
    case KeepLastN(n) => Some(if n > 1 then n else 1)
    case KeepForever => None
  }

  /** How many of the oldest versions the policy evicts. */
  function Excess(c: VersionChain): (n: nat)
    ensures n <= |c.versions| && (|c.versions| > 0 ==> n < |c.versions|)
  {
    var limit := Limit(c.retention);
    if limit.Some? && |c.versions| > limit.value then |c.versions| - limit.value else 0
  }

  /** All chunk hashes of some versions, in order. */
  function HashesOf(vs: seq<VersionEntry>): seq<u128> {
    if |vs| == 0 then [] else HashesOf(vs[..|vs| - 1]) + vs[|vs| - 1].chunkHashes
  }

  function NextId(vs: seq<VersionEntry>): nat {
    if |vs| == 0 then 0 else vs[|vs| - 1].versionId + 1
  }

  /** `list_versions`. */
  function ListVersions(c: VersionChain): (ids: seq<nat>)
    ensures |ids| == |c.versions|
  {
    seq(|c.versions|, i requires 0 <= i < |c.versions| => c.versions[i].versionId)
  }

  function Pushed(c: VersionChain, dtype: DTypeId, shape: seq<u32>, attrs: AttrMap, hashes: seq<u128>): VersionChain {
    c.(versions := c.versions + [VersionEntry(NextId(c.versions), dtype, shape, attrs, hashes)])
  }

  function Retained(c: VersionChain): VersionChain {
    c.(versions := c.versions[Excess(c)..])
  }

  function Evicted(c: VersionChain): seq<u128> {
    HashesOf(c.versions[..Excess(c)])
  }

  /**
   * Exactly the last versions are kept, and the hashes of exactly the others are evicted: one version
   * for `KeepLatest`, at least one and at most n for `KeepLastN(n)`, all for `KeepForever`.
   */
  ghost predicate KeepsLast(all: seq<VersionEntry>, policy: RetentionPolicy, kept: seq<VersionEntry>, evicted: seq<u128>) {
    && |kept| <= |all| && kept == all[|all| - |kept|..]
    && evicted == HashesOf(all[..|all| - |kept|])
    && (policy == KeepForever ==> |kept| == |all|)
    && (policy == KeepLatest ==> |kept| == if |all| == 0 then 0 else 1)
    && (policy.KeepLastN? ==>
          && (|all| <= policy.n || |all| <= 1 ==> |kept| == |all|)
          && (|all| > policy.n >= 1 ==> |kept| == policy.n)
          && (|all| > 1 && policy.n == 0 ==> |kept| == 1))
  }

  /** Drops the oldest versions beyond the limit and collects their chunk hashes. */
  method ApplyRetention(c: VersionChain) returns (kept: VersionChain, evicted: seq<u128>)
    ensures kept == Retained(c) && evicted == Evicted(c)
    ensures KeepsLast(c.versions, c.retention, kept.versions, evicted) && kept.key == c.key && kept.retention == c.retention
  {
    evicted := [];
    kept := c;
    var limit := match c.retention {
      case KeepLatest => 1
      case KeepLastN(n) => if n > 1 then n else 1
      case KeepForever => |c.versions|
    };
    if |c.versions| > limit {
      var toRemove := |c.versions| - limit;
      for i := 0 to toRemove
        invariant evicted == HashesOf(c.versions[..i])
      {
        assert c.versions[..i + 1][..i] == c.versions[..i];
        evicted := evicted + c.versions[i].chunkHashes;
      }
      kept := c.(versions := c.versions[toRemove..]);
    }
    assert c.versions[0..] == c.versions;
  }

  method Append(c: VersionChain, dtype: DTypeId, shape: seq<u32>, attrs: AttrMap, hashes: seq<u128>)
      returns (c': VersionChain, id: nat, evicted: seq<u128>)
    ensures var p := Pushed(c, dtype, shape, attrs, hashes);
            c' == Retained(p) && evicted == Evicted(p) && id == NextId(c.versions)
    ensures KeepsLast(c.versions + [VersionEntry(id, dtype, shape, attrs, hashes)], c.retention, c'.versions, evicted)
  {
    id := if |c.versions| == 0 then 0 else c.versions[|c.versions| - 1].versionId + 1;
    var entry := VersionEntry(id, dtype, shape, attrs, hashes);
    c', evicted := ApplyRetention(c.(versions := c.versions + [entry]));
  }

  // ---------- properties ----------

  /** The ids of a chain are consecutive and end just before `next`. */
  predicate IdsEndAt(vs: seq<VersionEntry>, next: nat) {
    |vs| <= next && forall i :: 0 <= i < |vs| ==> vs[i].versionId == next - |vs| + i
  }

  lemma RetainedKeepsLast(c: VersionChain)
    ensures KeepsLast(c.versions, c.retention, Retained(c).versions, Evicted(c))
  {
    hide HashesOf;
    assert |Retained(c).versions| == |c.versions| - Excess(c);
  }

  /** The hashes of a run of versions, one version after the other. */
  lemma {:induction false} HashesInOrder(vs: seq<VersionEntry>, i: nat, j: nat)
    requires i < |vs| && j < |vs[i].chunkHashes|
    ensures var before := HashesOf(vs[..i]);
            |before| + j < |HashesOf(vs)| && HashesOf(vs)[|before| + j] == vs[i].chunkHashes[j]
  {
    if i < |vs| - 1 {
      HashesInOrder(vs[..|vs| - 1], i, j);
      assert vs[..|vs| - 1][..i] == vs[..i];
    }
  }

  /** Appending under any policy keeps the ids consecutive and moves their end up by one. */
  lemma AppendKeepsIds(c: VersionChain, next: nat, dtype: DTypeId, shape: seq<u32>, attrs: AttrMap, hashes: seq<u128>)
    requires IdsEndAt(c.versions, next) && (|c.versions| == 0 ==> next == 0)
    ensures var c' := Retained(Pushed(c, dtype, shape, attrs, hashes));
            IdsEndAt(c'.versions, next + 1) && |c'.versions| > 0
            && (Limit(c.retention).Some? ==> |c'.versions| <= Limit(c.retention).value)
  {
  }

  lemma {:induction false} HashesSplit(vs: seq<VersionEntry>, n: nat)
    requires n <= |vs|
    ensures HashesOf(vs) == HashesOf(vs[..n]) + HashesOf(vs[n..])
  {
    if n < |vs| {
      var init := vs[..|vs| - 1];
      HashesSplit(init, n);
      assert init[..n] == vs[..n] && init[n..] == vs[n..][..|vs| - 1 - n];
    } else {
      assert vs[..n] == vs && vs[n..] == [];
    }
  }

  /** Nothing is lost: old hashes plus the new version's are the kept ones plus the evicted ones. */
  lemma AppendConserves(c: VersionChain, dtype: DTypeId, shape: seq<u32>, attrs: AttrMap, hashes: seq<u128>)
    ensures var p := Pushed(c, dtype, shape, attrs, hashes);
            multiset(HashesOf(c.versions)) + multiset(hashes)
            == multiset(HashesOf(Retained(p).versions)) + multiset(Evicted(p))
  {
    var p := Pushed(c, dtype, shape, attrs, hashes);
    HashesSplit(p.versions, Excess(p));
    assert p.versions[..|p.versions| - 1] == c.versions;
    assert multiset(HashesOf(c.versions) + hashes) == multiset(Evicted(p) + HashesOf(Retained(p).versions));
  }
}

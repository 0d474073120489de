// Accounting for chunk references: the content store's counters against the hashes that the
// retained versions of all chains use.

module Ledger {
  import opened Types
  import opened ContentStoreModel
  import opened VersionChainModel

  type Chains = map<Bytes, VersionChain>

  function ChainHashes(c: VersionChain): multiset<u128> {
    multiset(HashesOf(c.versions))
  }

  /** Every use of a chunk hash by a retained version, over all chains. */
  ghost function Uses(m: Chains): multiset<u128>
    decreases |m|
  {
    if m == map[] then multiset{}
    else
      var k :| k in m;
      ChainHashes(m[k]) + Uses(m - {k})
  }

  lemma {:induction false} UsesRemove(m: Chains, k: Bytes)
    requires k in m
    ensures Uses(m) == ChainHashes(m[k]) + Uses(m - {k})
    decreases |m|
  {
    hide ChainHashes;
    var j :| j in m && Uses(m) == ChainHashes(m[j]) + Uses(m - {j});
    if j != k {
      UsesRemove(m - {j}, k);
      UsesRemove(m - {k}, j);
      assert m - {j} - {k} == m - {k} - {j};
      Swap(ChainHashes(m[j]), ChainHashes(m[k]), Uses(m - {j} - {k}));
    }
  }

  lemma Swap(a: multiset<u128>, b: multiset<u128>, c: multiset<u128>)
    ensures a + (b + c) == b + (a + c)
  {
  }

  /** What the chain of `k` uses; nothing if there is none. */
  ghost function UsesOf(m: Chains, k: Bytes): multiset<u128> {
    if k in m then ChainHashes(m[k]) else multiset{}
  }

  lemma UsesUpdate(m: Chains, k: Bytes, c: VersionChain)
    ensures Uses(m[k := c]) + UsesOf(m, k) == Uses(m) + ChainHashes(c)
  {
    hide ChainHashes, Uses;
    UsesRemove(m[k := c], k);
    assert m[k := c] - {k} == m - {k};
    if k in m {
      UsesRemove(m, k);
    } else {
      assert m - {k} == m;
    }
  }

  lemma UsesDelete(m: Chains, k: Bytes)
    ensures Uses(m - {k}) + UsesOf(m, k) == Uses(m)
  {
    if k in m {
      UsesRemove(m, k);
    } else {
      assert m - {k} == m;
    }
  }

  function Net(uses: multiset<u128>, leaked: multiset<u128>, missed: multiset<u128>, h: u128): int {
    (uses[h] as int) + (leaked[h] as int) - (missed[h] as int)
  }

  /**
   * The books: a counter is the uses by retained versions, plus references leaked by deleted
   * chains, minus references that were never counted, on 32 bits.
   */
  ghost predicate Balanced(
    entries: map<u128, ContentEntry>, uses: multiset<u128>, leaked: multiset<u128>, missed: multiset<u128>)
  {
    && (forall h :: h in entries ==> entries[h].refcount == Wrap32(Net(uses, leaked, missed, h)))
    && (forall h :: h !in entries ==> Net(uses, leaked, missed, h) == 0)
  }

  /** The counters after `delta` more references. */
  ghost predicate Shifted(before: map<u128, ContentEntry>, after: map<u128, ContentEntry>, delta: multiset<u128>) {
    && (forall h :: h in before || h in delta ==> h in after)
    && (forall h :: h in after ==> h in before || h in delta)
    && (forall h :: h in after ==> after[h].refcount == Wrap32(Count(before, h) as int + delta[h]))
  }

  lemma WrapAdd(a: int, b: int)
    ensures Wrap32(Wrap32(a) + b) == Wrap32(a + b)
  {
  }

  /** Balanced books in which nothing leaked or was missed: the counters are the uses. */
  lemma ExactCounts(entries: map<u128, ContentEntry>, uses: multiset<u128>)
    requires Balanced(entries, uses, multiset{}, multiset{})
    ensures forall h :: h in entries && uses[h] < U32_LIMIT ==> entries[h].refcount == uses[h]
    ensures forall h :: h in uses ==> h in entries
    ensures (forall h :: uses[h] < U32_LIMIT) ==>
              forall h :: h in GcCandidates(entries) <==> h in entries && h !in uses
  {
  }

  /**
   * A chunk written twice by one batch is counted once but used twice, so evicting both versions
   * takes its 32-bit counter below zero.
   */
  lemma DuplicateUnderflows(h: u128, c: ContentEntry)
    requires c.refcount == 1
    ensures Balanced(map[h := c], multiset{h, h}, multiset{}, multiset{h})
    ensures var once := c.(refcount := Wrap32(c.refcount as int - 1));
            var twice := once.(refcount := Wrap32(once.refcount as int - 1));
            twice.refcount == U32_LIMIT - 1 && Balanced(map[h := twice], multiset{}, multiset{}, multiset{h})
  {
    var once := c.(refcount := Wrap32(c.refcount as int - 1));
    assert Net(multiset{h, h}, multiset{}, multiset{h}, h) == 1;
    assert Net(multiset{}, multiset{}, multiset{h}, h) == -1;
    assert once.refcount == 0;
  }
}

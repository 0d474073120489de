// What a batch put plans before it writes: which chunks are already stored, and where the new ones
// will stand once the coalesced buffer is appended (crates/tpx-shard/src/engine.rs, `put_batch`).

module EngineBatch {
  import opened Wrappers
  import opened Types
  import opened LittleEndian
  import opened ChunkIo
  import opened History
  import opened ContentStoreModel
  import opened Ledger
  import opened EngineState

  datatype BatchItem = BatchItem(key: Bytes, data: Bytes, dtype: DTypeId, shape: seq<u32>)

  datatype ProcessedChunk = ProcessedChunk(contentHash: u128, chunkBytes: Bytes)

  datatype PendingWrite = PendingWrite(
    tensorIdx: nat, chunkIdx: nat, bufferOffset: nat, chunkLen: u32, contentHash: u128, shardId: u16)

  type Row = seq<Option<ChunkRef>>

  /** The records that putting the items one by one would leave. */
  function BatchRecords(items: seq<BatchItem>): (rs: seq<Record>)
    ensures |rs| == |items|
  {
    if |items| == 0 then []
    else
      var it := items[|items| - 1];
      BatchRecords(items[..|items| - 1]) + [Record(it.key, Tensor(it.dtype, it.shape, it.data), map[], true)]
  }

  function HashSeq(chunks: seq<ProcessedChunk>): (hs: seq<u128>)
    ensures |hs| == |chunks|
  {
    seq(|chunks|, i requires 0 <= i < |chunks| => chunks[i].contentHash)
  }

  /** Chunk hashes of the items from `i` on. */
  function HashesFrom(work: seq<seq<ProcessedChunk>>, i: nat): multiset<u128>
    requires i <= |work|
    decreases |work| - i
  {
    if i == |work| then multiset{} else multiset(HashSeq(work[i])) + HashesFrom(work, i + 1)
  }

  function PendingHashes(ps: seq<PendingWrite>): multiset<u128> {
    if |ps| == 0 then multiset{} else PendingHashes(ps[..|ps| - 1]) + multiset{ps[|ps| - 1].contentHash}
  }

  function Concat(segs: seq<Bytes>): Bytes {
    if |segs| == 0 then [] else Concat(segs[..|segs| - 1]) + segs[|segs| - 1]
  }

  ghost predicate Usable(blobs: iset<Bytes>, segment: Bytes) {
    0 < |segment| <= MAX_SEGMENT && segment in blobs
  }

  /** The processed chunks of an item are the images and hashes of its segments. */
  ghost predicate WorkOk(env: Env, blobs: iset<Bytes>, chunks: seq<ProcessedChunk>, segs: seq<Bytes>) {
    |chunks| == |segs|
    && forall c :: 0 <= c < |segs| ==>
                     Usable(blobs, segs[c])
                     && chunks[c] == ProcessedChunk(env.contentHash(segs[c]), Image(env, segs[c]))
  }

  lemma WorkNone(env: Env, blobs: iset<Bytes>, data: Bytes)
    ensures WorkOk(env, blobs, [], []) && Concat([]) == data[..0]
  {
  }

  lemma WorkSnoc(env: Env, blobs: iset<Bytes>, chunks: seq<ProcessedChunk>, segs: seq<Bytes>, data: Bytes, off: nat, segment: Bytes)
    requires WorkOk(env, blobs, chunks, segs) && off + |segment| <= |data|
    requires Concat(segs) == data[..off] && segment == data[off..off + |segment|]
    requires 0 < |segment| <= MAX_SEGMENT && segment in blobs
    ensures WorkOk(env, blobs, chunks + [ProcessedChunk(env.contentHash(segment), Image(env, segment))], segs + [segment])
    ensures Concat(segs + [segment]) == data[..off + |segment|]
  {
    hide Image;
    assert (segs + [segment])[..|segs|] == segs;
    assert data[..off] + segment == data[..off + |segment|];
  }

  /** A pending write names a segment whose image stands in the buffer. */
  ghost predicate PendingOk(env: Env, blobs: iset<Bytes>, segs: seq<seq<Bytes>>, buffer: Bytes, p: PendingWrite) {
    && p.tensorIdx < |segs| && p.chunkIdx < |segs[p.tensorIdx]|
    && var segment := segs[p.tensorIdx][p.chunkIdx];
       && Usable(blobs, segment)
       && At(buffer, p.bufferOffset, Image(env, segment))
       && p.chunkLen == |Image(env, segment)|
       && p.contentHash == env.contentHash(segment)
  }

  function PendingSize(ps: seq<PendingWrite>): nat {
    if |ps| == 0 then 0 else PendingSize(ps[..|ps| - 1]) + ps[|ps| - 1].chunkLen
  }

  lemma PendingSizeStep(ps: seq<PendingWrite>, q: nat)
    requires q < |ps|
    ensures PendingSize(ps[..q + 1]) == PendingSize(ps[..q]) + ps[q].chunkLen
  {
    assert ps[..q + 1][..q] == ps[..q];
  }

  ghost predicate AllPendingOk(env: Env, blobs: iset<Bytes>, segs: seq<seq<Bytes>>, buffer: Bytes, ps: seq<PendingWrite>) {
    (buffer == [] ==> ps == []) && |buffer| % CHUNK_ALIGN == 0 && PendingSize(ps) == |buffer|
    && forall q :: 0 <= q < |ps| ==> PendingOk(env, blobs, segs, buffer, ps[q])
  }

  /** The references known so far read back their segments. */
  ghost predicate RowOk(env: Env, log: Bytes, row: Row, segs: seq<Bytes>) {
    |row| == |segs| && forall c :: 0 <= c < |row| && row[c].Some? ==> Holds(env, log, row[c].value, segs[c])
  }

  /** Every reference still open is a pending write. */
  ghost predicate Covered(row: Row, t: nat, upTo: nat, ps: seq<PendingWrite>) {
    forall c :: 0 <= c < |row| && c < upTo && row[c].None? ==>
                  exists q :: 0 <= q < |ps| && ps[q].tensorIdx == t && ps[q].chunkIdx == c
  }

  lemma PendingGrows(env: Env, blobs: iset<Bytes>, segs: seq<seq<Bytes>>, buffer: Bytes, more: Bytes, ps: seq<PendingWrite>)
    requires AllPendingOk(env, blobs, segs, buffer, ps)
    ensures forall q :: 0 <= q < |ps| ==> PendingOk(env, blobs, segs, buffer + more, ps[q])
  {
    hide Image;
    forall q | 0 <= q < |ps| ensures PendingOk(env, blobs, segs, buffer + more, ps[q]) {
      assert PendingOk(env, blobs, segs, buffer, ps[q]);
      var image := Image(env, segs[ps[q].tensorIdx][ps[q].chunkIdx]);
      AtGrows(buffer, more, ps[q].bufferOffset, image);
    }
  }

  lemma AtGrows(buf: Bytes, more: Bytes, pos: nat, piece: Bytes)
    requires At(buf, pos, piece)
    ensures At(buf + more, pos, piece)
  {
    assert (buf + more)[pos..pos + |piece|] == buf[pos..pos + |piece|];
  }

  lemma AtShift(front: Bytes, buf: Bytes, pos: nat, piece: Bytes)
    requires At(buf, pos, piece)
    ensures At(front + buf, |front| + pos, piece)
  {
    assert (front + buf)[|front| + pos..|front| + pos + |piece|] == buf[pos..pos + |piece|];
  }

  /** Adding the image of one more segment to the buffer. */
  lemma PendingSnoc(env: Env, blobs: iset<Bytes>, segs: seq<seq<Bytes>>, buffer: Bytes, ps: seq<PendingWrite>, p: PendingWrite)
    requires Lawful(env) && AllPendingOk(env, blobs, segs, buffer, ps)
    requires p.tensorIdx < |segs| && p.chunkIdx < |segs[p.tensorIdx]| && p.bufferOffset == |buffer|
    requires var segment := segs[p.tensorIdx][p.chunkIdx];
             Usable(blobs, segment) && p.chunkLen == |Image(env, segment)| && p.contentHash == env.contentHash(segment)
    ensures var image := Image(env, segs[p.tensorIdx][p.chunkIdx]);
            AllPendingOk(env, blobs, segs, buffer + image, ps + [p])
  {
    hide Image, Lawful;
    var segment := segs[p.tensorIdx][p.chunkIdx];
    var image := Image(env, segment);
    ImageSize(env, segment);
    PendingGrows(env, blobs, segs, buffer, image, ps);
    AtWhole(image);
    AtShift(buffer, image, 0, image);
    var after := buffer + image;
    forall q | 0 <= q < |ps + [p]| ensures PendingOk(env, blobs, segs, after, (ps + [p])[q]) {
      if q < |ps| {
        assert PendingOk(env, blobs, segs, after, ps[q]);
      }
    }
  }

  /** Once the buffer is appended, a pending write's reference reads its segment. */
  lemma PendingHolds(env: Env, blobs: iset<Bytes>, segs: seq<seq<Bytes>>, log: Bytes, buffer: Bytes, p: PendingWrite)
    requires Lawful(env) && PendingOk(env, blobs, segs, buffer, p)
    ensures Holds(env, log + buffer, ChunkRef(p.shardId, |log| + p.bufferOffset, p.chunkLen), segs[p.tensorIdx][p.chunkIdx])
  {
    hide Image, Lawful, Holds;
    var segment := segs[p.tensorIdx][p.chunkIdx];
    AtShift(log, buffer, p.bufferOffset, Image(env, segment));
    ImageHolds(env, log + buffer, p.shardId, |log| + p.bufferOffset, segment);
  }

  lemma RowGrows(env: Env, log: Bytes, longer: Bytes, row: Row, segs: seq<Bytes>)
    requires RowOk(env, log, row, segs) && log <= longer
    ensures RowOk(env, longer, row, segs)
  {
    hide Holds;
    forall c | 0 <= c < |row| && row[c].Some? ensures Holds(env, longer, row[c].value, segs[c]) {
      HoldsGrows(env, log, longer, row[c].value, segs[c]);
    }
  }

  function Filled(row: Row): (refs: seq<ChunkRef>) {
    if |row| == 0 then []
    else if row[|row| - 1].Some? then Filled(row[..|row| - 1]) + [row[|row| - 1].value]
    else Filled(row[..|row| - 1])
  }

  /** A complete row reads back the whole tensor. */
  lemma {:induction false} RowReads(env: Env, log: Bytes, row: Row, segs: seq<Bytes>)
    requires RowOk(env, log, row, segs) && forall c :: 0 <= c < |row| ==> row[c].Some?
    ensures HoldsAll(env, log, Filled(row), Concat(segs))
  {
    hide Holds, HoldsAll;
    if |row| == 0 {
      HoldsNone(env, log);
    } else {
      var n := |row| - 1;
      RowReads(env, log, row[..n], segs[..n]);
      HoldsAllSnoc(env, log, Filled(row[..n]), row[n].value, Concat(segs[..n]), segs[n]);
    }
  }

  lemma HoldsNone(env: Env, log: Bytes)
    ensures HoldsAll(env, log, [], [])
  {
  }

  /** The books when a pending hash was already filed by an earlier duplicate: never counted. */
  lemma BalanceMiss(entries: map<u128, ContentEntry>, uses: multiset<u128>, h: u128, leaked: multiset<u128>, missed: multiset<u128>)
    requires Balanced(entries, uses, leaked, missed)
    ensures Balanced(entries, uses + multiset{h}, leaked, missed + multiset{h})
  {
    forall x ensures Net(uses + multiset{h}, leaked, missed + multiset{h}, x) == Net(uses, leaked, missed, x) {
    }
  }

  // ---------- steps of the plan ----------

  lemma PlanStart(env: Env, log: Bytes, row: Row, segs: seq<Bytes>, t: nat, ps: seq<PendingWrite>, chunks: seq<ProcessedChunk>)
    requires |row| == |segs| && forall x :: 0 <= x < |row| ==> row[x].None?
    ensures RowOk(env, log, row, segs) && Covered(row, t, 0, ps)
    ensures Accounts(PendingHashes(ps), multiset{}, PendingHashes(ps), multiset(HashSeq(chunks)[..0]))
  {
  }

  /** Every planned hash is either a counted hit or a pending write. */
  ghost predicate Accounts(pending: multiset<u128>, hits: multiset<u128>, base: multiset<u128>, planned: multiset<u128>) {
    pending + hits == base + planned
  }

  lemma AccountsJoin(base: multiset<u128>, p1: multiset<u128>, h1: multiset<u128>, planned: multiset<u128>,
                     p2: multiset<u128>, h2: multiset<u128>, more: multiset<u128>)
    requires Accounts(p1, h1, base, planned) && Accounts(p2, h2, p1, more)
    ensures Accounts(p2, h1 + h2, base, planned + more)
  {
    forall x ensures (p2 + (h1 + h2))[x] == (base + (planned + more))[x] {
      assert (p1 + h1)[x] == (base + planned)[x] && (p2 + h2)[x] == (p1 + more)[x];
    }
  }

  lemma HashSeqStep(chunks: seq<ProcessedChunk>, c: nat)
    requires c < |chunks|
    ensures multiset(HashSeq(chunks)[..c + 1]) == multiset(HashSeq(chunks)[..c]) + multiset{chunks[c].contentHash}
  {
    assert HashSeq(chunks)[..c + 1] == HashSeq(chunks)[..c] + [chunks[c].contentHash];
  }

  lemma RowSet(env: Env, log: Bytes, row: Row, segs: seq<Bytes>, t: nat, c: nat, ps: seq<PendingWrite>, r: ChunkRef)
    requires c < |row| && RowOk(env, log, row, segs) && Covered(row, t, c, ps) && Holds(env, log, r, segs[c])
    ensures RowOk(env, log, row[c := Some(r)], segs) && Covered(row[c := Some(r)], t, c + 1, ps)
  {
    hide Holds;
  }

  lemma CoveredSnoc(row: Row, t: nat, c: nat, ps: seq<PendingWrite>, p: PendingWrite)
    requires c < |row| && Covered(row, t, c, ps) && p.tensorIdx == t && p.chunkIdx == c
    ensures Covered(row, t, c + 1, ps + [p])
  {
    forall x | 0 <= x < |row| && x < c + 1 && row[x].None?
      ensures exists q :: 0 <= q < |ps + [p]| && (ps + [p])[q].tensorIdx == t && (ps + [p])[q].chunkIdx == x
    {
      if x == c {
        assert (ps + [p])[|ps|] == p;
      } else {
        var q :| 0 <= q < |ps| && ps[q].tensorIdx == t && ps[q].chunkIdx == x;
        assert (ps + [p])[q] == ps[q];
      }
    }
  }

  lemma CoveredGrows(row: Row, t: nat, upTo: nat, ps: seq<PendingWrite>, longer: seq<PendingWrite>)
    requires Covered(row, t, upTo, ps) && ps <= longer
    ensures Covered(row, t, upTo, longer)
  {
    forall x | 0 <= x < |row| && x < upTo && row[x].None?
      ensures exists q :: 0 <= q < |longer| && longer[q].tensorIdx == t && longer[q].chunkIdx == x
    {
      var q :| 0 <= q < |ps| && ps[q].tensorIdx == t && ps[q].chunkIdx == x;
      assert longer[q] == ps[q];
    }
  }

  lemma PendingHashesSnoc(ps: seq<PendingWrite>, p: PendingWrite)
    ensures PendingHashes(ps + [p]) == PendingHashes(ps) + multiset{p.contentHash}
  {
    assert (ps + [p])[..|ps|] == ps;
  }

  // ---------- filing the written chunks ----------

  predicate Complete(row: Row) {
    forall c :: 0 <= c < |row| ==> row[c].Some?
  }

  /** The reference of a pending write is filled in. */
  predicate Placed(rows: seq<Row>, p: PendingWrite) {
    p.tensorIdx < |rows| && p.chunkIdx < |rows[p.tensorIdx]| && rows[p.tensorIdx][p.chunkIdx].Some?
  }

  lemma FiledOnce(entries: map<u128, ContentEntry>, h: u128, c: ContentEntry)
    requires h !in entries && c.refcount == 1
    ensures Shifted(entries, entries[h := c], multiset{h})
  {
  }

  ghost predicate RowsOk(env: Env, log: Bytes, rows: seq<Row>, segs: seq<seq<Bytes>>) {
    |rows| == |segs| && forall t :: 0 <= t < |rows| ==> RowOk(env, log, rows[t], segs[t])
  }

  ghost predicate AllCovered(rows: seq<Row>, ps: seq<PendingWrite>) {
    forall t :: 0 <= t < |rows| ==> Covered(rows[t], t, |rows[t]|, ps)
  }

  /** `rows` fills in more of `planned` and undoes nothing. */
  predicate Extends(planned: seq<Row>, rows: seq<Row>) {
    && |rows| == |planned|
    && (forall t :: 0 <= t < |rows| ==> |rows[t]| == |planned[t]|)
    && (forall t, c :: 0 <= t < |rows| && 0 <= c < |rows[t]| && planned[t][c].Some? ==> rows[t][c].Some?)
  }

  lemma ExtendsSelf(rows: seq<Row>)
    ensures Extends(rows, rows)
  {
  }

  lemma PendingPlace(env: Env, log: Bytes, blobs: iset<Bytes>, segs: seq<seq<Bytes>>, buffer: Bytes, p: PendingWrite, rows: seq<Row>)
    requires PendingOk(env, blobs, segs, buffer, p) && RowsOk(env, log, rows, segs)
    ensures p.tensorIdx < |rows| && p.chunkIdx < |rows[p.tensorIdx]| == |segs[p.tensorIdx]|
  {
    assert RowOk(env, log, rows[p.tensorIdx], segs[p.tensorIdx]);
  }

  lemma RowsFill(env: Env, log: Bytes, blobs: iset<Bytes>, planned: seq<Row>, rows: seq<Row>, segs: seq<seq<Bytes>>,
                 buffer: Bytes, p: PendingWrite, r: ChunkRef)
    requires PendingOk(env, blobs, segs, buffer, p) && RowsOk(env, log, rows, segs) && Extends(planned, rows)
    requires Holds(env, log, r, segs[p.tensorIdx][p.chunkIdx])
    ensures p.tensorIdx < |rows| && p.chunkIdx < |rows[p.tensorIdx]|
    ensures var after := rows[p.tensorIdx := rows[p.tensorIdx][p.chunkIdx := Some(r)]];
            && RowsOk(env, log, after, segs) && Extends(planned, after) && Placed(after, p)
            && forall x :: Placed(rows, x) ==> Placed(after, x)
  {
    hide Holds, Image, At;
    var t, c := p.tensorIdx, p.chunkIdx;
    assert RowOk(env, log, rows[t], segs[t]);
    var after := rows[t := rows[t][c := Some(r)]];
    forall x | 0 <= x < |after| ensures RowOk(env, log, after[x], segs[x]) {
      assert RowOk(env, log, rows[x], segs[x]);
    }
  }

  lemma PendingHashesNone(ps: seq<PendingWrite>, uses: multiset<u128>)
    ensures uses + PendingHashes(ps[..0]) == uses
  {
  }

  lemma PendingHashesStep(ps: seq<PendingWrite>, q: nat, uses: multiset<u128>)
    requires q < |ps|
    ensures uses + PendingHashes(ps[..q]) + multiset{ps[q].contentHash} == uses + PendingHashes(ps[..q + 1])
  {
    PendingHashesSnoc(ps[..q], ps[q]);
    assert ps[..q + 1] == ps[..q] + [ps[q]];
  }

  lemma RowsComplete(planned: seq<Row>, rows: seq<Row>, ps: seq<PendingWrite>)
    requires Extends(planned, rows) && AllCovered(planned, ps)
    requires forall q :: 0 <= q < |ps| ==> Placed(rows, ps[q])
    ensures forall t :: 0 <= t < |rows| ==> Complete(rows[t])
  {
    forall t, c | 0 <= t < |rows| && 0 <= c < |rows[t]| ensures rows[t][c].Some? {
      assert Covered(planned[t], t, |planned[t]|, ps);
      if planned[t][c].None? {
        var q :| 0 <= q < |ps| && ps[q].tensorIdx == t && ps[q].chunkIdx == c;
        assert Placed(rows, ps[q]);
      }
    }
  }

  // ---------- planning item by item ----------

  lemma BatchStart(env: Env, blobs: iset<Bytes>, log: Bytes, segs: seq<seq<Bytes>>, work: seq<seq<ProcessedChunk>>)
    ensures RowsOk(env, log, [], segs[..0]) && AllCovered([], []) && AllPendingOk(env, blobs, segs, [], [])
    ensures Accounts(PendingHashes([]), multiset{}, multiset{}, multiset{})
    ensures multiset{} + HashesFrom(work, 0) == HashesFrom(work, 0)
  {
  }

  lemma RowsSnoc(env: Env, log: Bytes, rows: seq<Row>, segs: seq<seq<Bytes>>, t: nat,
                 ps: seq<PendingWrite>, longer: seq<PendingWrite>, row: Row)
    requires t < |segs| && RowsOk(env, log, rows, segs[..t]) && AllCovered(rows, ps) && ps <= longer
    requires RowOk(env, log, row, segs[t]) && Covered(row, t, |row|, longer)
    ensures RowsOk(env, log, rows + [row], segs[..t + 1]) && AllCovered(rows + [row], longer)
  {
    hide RowOk, Covered;
    forall x | 0 <= x < t + 1
      ensures RowOk(env, log, (rows + [row])[x], segs[..t + 1][x])
              && Covered((rows + [row])[x], x, |(rows + [row])[x]|, longer)
    {
      if x < t {
        assert RowOk(env, log, rows[x], segs[..t][x]) && Covered(rows[x], x, |rows[x]|, ps);
        CoveredGrows(rows[x], x, |rows[x]|, ps, longer);
      }
    }
  }

  lemma BatchEnd(work: seq<seq<ProcessedChunk>>, pending: multiset<u128>, hits: multiset<u128>, planned: multiset<u128>)
    requires Accounts(pending, hits, multiset{}, planned)
    requires planned + HashesFrom(work, |work|) == HashesFrom(work, 0)
    ensures pending + hits == HashesFrom(work, 0)
  {
  }

  // ---------- committing item by item ----------

  lemma RowOf(env: Env, log: Bytes, rows: seq<Row>, segs: seq<seq<Bytes>>, i: nat)
    requires RowsOk(env, log, rows, segs) && i < |segs|
    ensures |rows| == |segs| && RowOk(env, log, rows[i], segs[i])
  {
  }

  lemma HashesStep(work: seq<seq<ProcessedChunk>>, i: nat, uses: multiset<u128>)
    requires i < |work|
    ensures uses + multiset(HashSeq(work[i])) + HashesFrom(work, i + 1) == uses + HashesFrom(work, i)
  {
  }

  lemma HashesDone(work: seq<seq<ProcessedChunk>>, uses: multiset<u128>)
    ensures uses + HashesFrom(work, |work|) == uses
  {
  }
}

// What an archive means: the sequence of everything put into it, with the deleted records marked,
// and the map of current tensors that this history stands for.

module History {
  import opened Wrappers
  import opened Types
  import opened AttrsFormat
  import opened TocFormat
  import opened TocIndex
  import opened ChunkIo

  datatype Record = Record(key: Bytes, tensor: Tensor, attrs: AttrMap, live: bool)

  // ---------- the abstract archive ----------

  /** The current tensor of every live key: a put binds its key, a dead record unbinds it. */
  function View(h: seq<Record>): map<Bytes, Tensor> {
    if |h| == 0 then map[]
    else
      var r := h[|h| - 1];
      if r.live then View(h[..|h| - 1])[r.key := r.tensor] else View(h[..|h| - 1]) - {r.key}
  }

  /** Every record of `key` marked dead, as a delete does. */
  function Dead(h: seq<Record>, key: Bytes): (r: seq<Record>)
    ensures |r| == |h|
  {
    seq(|h|, i requires 0 <= i < |h| => if h[i].key == key then h[i].(live := false) else h[i])
  }

  /** A delete removes exactly its key from the current tensors. */
  lemma {:induction false} DeadView(h: seq<Record>, key: Bytes)
    ensures View(Dead(h, key)) == View(h) - {key}
  {
    if |h| > 0 {
      DeadView(h[..|h| - 1], key);
      assert Dead(h, key)[..|h| - 1] == Dead(h[..|h| - 1], key);
    }
  }

  /** All records of one key, in order. */
  function KeyRecords(h: seq<Record>, key: Bytes): seq<Record> {
    if |h| == 0 then []
    else if h[|h| - 1].key == key then KeyRecords(h[..|h| - 1], key) + [h[|h| - 1]]
    else KeyRecords(h[..|h| - 1], key)
  }

  /** The records of one key that no delete has marked. */
  function LiveRecords(h: seq<Record>, key: Bytes): seq<Record> {
    if |h| == 0 then []
    else if h[|h| - 1].key == key && h[|h| - 1].live then LiveRecords(h[..|h| - 1], key) + [h[|h| - 1]]
    else LiveRecords(h[..|h| - 1], key)
  }

  /** A delete reaches back over the whole history, so dead records of a key come first. */
  ghost predicate DeadFirst(h: seq<Record>) {
    forall i, j :: 0 <= i < j < |h| && h[i].key == h[j].key && !h[j].live ==> !h[i].live
  }

  /** How many records of a key are dead. */
  function DeadCount(h: seq<Record>, key: Bytes): int {
    |KeyRecords(h, key)| - |LiveRecords(h, key)|
  }

  /** The live records of a key are exactly the last ones among all its records. */
  lemma {:induction false} LiveAreLast(h: seq<Record>, key: Bytes)
    requires DeadFirst(h)
    ensures 0 <= DeadCount(h, key)
    ensures LiveRecords(h, key) == KeyRecords(h, key)[DeadCount(h, key)..]
    ensures forall i :: 0 <= i < |KeyRecords(h, key)| ==> (KeyRecords(h, key)[i].live <==> i >= DeadCount(h, key))
  {
    if |h| > 0 {
      var init, r := h[..|h| - 1], h[|h| - 1];
      LiveAreLast(init, key);
      if r.key == key && !r.live {
        NoneLive(init, key);
      }
    }
  }

  lemma {:induction false} NoneLive(h: seq<Record>, key: Bytes)
    requires forall i :: 0 <= i < |h| && h[i].key == key ==> !h[i].live
    ensures LiveRecords(h, key) == []
  {
    if |h| > 0 {
      NoneLive(h[..|h| - 1], key);
    }
  }

  lemma {:induction false} DeadRecords(h: seq<Record>, key: Bytes, k: Bytes)
    ensures LiveRecords(Dead(h, key), k) == if k == key then [] else LiveRecords(h, k)
  {
    if |h| > 0 {
      DeadRecords(h[..|h| - 1], key, k);
      assert Dead(h, key)[..|h| - 1] == Dead(h[..|h| - 1], key);
    }
  }

  lemma {:induction false} LiveInView(h: seq<Record>, key: Bytes)
    requires DeadFirst(h)
    ensures key in View(h) <==> |LiveRecords(h, key)| > 0
    ensures key in View(h) ==> View(h)[key] == LiveRecords(h, key)[|LiveRecords(h, key)| - 1].tensor
  {
    if |h| > 0 {
      var init, r := h[..|h| - 1], h[|h| - 1];
      LiveInView(init, key);
      if r.key == key && !r.live {
        NoneLive(init, key);
      }
    }
  }

  // ---------- what compaction does to the records ----------

  datatype LiveItem = LiveItem(key: Bytes, tensor: Tensor, attrs: AttrMap)

  /** One item per live record, holding the current tensor of its key. */
  function LiveItems(h: seq<Record>, view: map<Bytes, Tensor>): (items: seq<LiveItem>)
    ensures |items| <= |h|
  {
    if |h| == 0 then []
    else
      var rest, r := LiveItems(h[..|h| - 1], view), h[|h| - 1];
      if r.live && r.key in view then rest + [LiveItem(r.key, view[r.key], r.attrs)] else rest
  }

  /** The records left by putting the items one by one. */
  function Rewritten(items: seq<LiveItem>): (h: seq<Record>)
    ensures |h| == |items|
  {
    seq(|items|, i requires 0 <= i < |items| => Record(items[i].key, items[i].tensor, items[i].attrs, true))
  }

  lemma LiveItemsNone(h: seq<Record>, view: map<Bytes, Tensor>)
    ensures LiveItems(h[..0], view) == []
  {
  }

  lemma LiveItemsStep(h: seq<Record>, view: map<Bytes, Tensor>, i: nat)
    requires i < |h|
    ensures LiveItems(h[..i + 1], view)
            == LiveItems(h[..i], view)
               + if h[i].live && h[i].key in view then [LiveItem(h[i].key, view[h[i].key], h[i].attrs)] else []
  {
    assert h[..i + 1][..i] == h[..i];
  }

  lemma RewrittenNone(items: seq<LiveItem>)
    ensures Rewritten(items[..0]) == []
  {
  }

  lemma RewrittenStep(items: seq<LiveItem>, i: nat)
    requires i < |items|
    ensures Rewritten(items[..i + 1])
            == Rewritten(items[..i]) + [Record(items[i].key, items[i].tensor, items[i].attrs, true)]
  {
  }

  lemma {:induction false} SomeLive(h: seq<Record>, i: nat)
    requires i < |h| && h[i].live
    ensures |LiveRecords(h, h[i].key)| > 0
  {
    if i < |h| - 1 {
      SomeLive(h[..|h| - 1], i);
    }
  }

  /** The keys of the items are the keys bound by live records, and each is put with one tensor only. */
  lemma {:induction false} RewrittenBinds(h: seq<Record>, view: map<Bytes, Tensor>)
    ensures var v := View(Rewritten(LiveItems(h, view)));
            forall k :: (k in v <==> k in view && |LiveRecords(h, k)| > 0) && (k in v ==> v[k] == view[k])
  {
    if |h| > 0 {
      var init, r := h[..|h| - 1], h[|h| - 1];
      RewrittenBinds(init, view);
      var items := LiveItems(h, view);
      if r.live && r.key in view {
        var all := Rewritten(items);
        assert all[..|all| - 1] == Rewritten(LiveItems(init, view));
      }
    }
  }

  /** Compaction keeps the current tensor of every key, and brings none back. */
  lemma RewrittenView(h: seq<Record>)
    requires DeadFirst(h)
    ensures View(Rewritten(LiveItems(h, View(h)))) == View(h)
  {
    hide View, LiveItems, Rewritten, LiveRecords;
    RewrittenBinds(h, View(h));
    forall k ensures k in View(h) <==> |LiveRecords(h, k)| > 0 {
      LiveInView(h, k);
    }
  }

  /**
   * `now` lists the records of `h` at `places`, which are the places of all live ones, in order: key and
   * attributes of each, with the current tensor of the key.
   */
  ghost predicate Relists(h: seq<Record>, view: map<Bytes, Tensor>, places: seq<nat>, now: seq<Record>) {
    && |places| == |now|
    && (forall j, k :: 0 <= j < k < |places| ==> places[j] < places[k])
    && (forall p: nat | p < |h| :: h[p].live ==> p in places)
    && (forall k :: 0 <= k < |places| ==> places[k] < |h| && Relisted(h[places[k]], view, now[k]))
  }

  ghost predicate Relisted(r: Record, view: map<Bytes, Tensor>, now: Record) {
    && r.live && now.live && now.key == r.key && now.attrs == r.attrs
    && r.key in view && now.tensor == view[r.key]
  }

  lemma RelistsMore(h: seq<Record>, r: Record, view: map<Bytes, Tensor>, places: seq<nat>, now: seq<Record>)
    requires Relists(h, view, places, now) && (r.live ==> r.key in view)
    ensures r.live ==> Relists(h + [r], view, places + [|h|], now + [Record(r.key, view[r.key], r.attrs, true)])
    ensures !r.live ==> Relists(h + [r], view, places, now)
  {
    forall p: nat | p < |h| ensures (h + [r])[p] == h[p] && (p in places ==> p in places + [|h|]) {
    }
    if r.live {
      assert (places + [|h|])[|places|] == |h|;
    }
  }

  lemma {:induction false} LiveItemsRelist(h: seq<Record>, view: map<Bytes, Tensor>) returns (places: seq<nat>)
    requires forall p :: 0 <= p < |h| && h[p].live ==> h[p].key in view
    ensures Relists(h, view, places, Rewritten(LiveItems(h, view)))
    decreases |h|
  {
    if |h| == 0 {
      places := [];
    } else {
      var n := |h| - 1;
      places := LiveItemsRelist(h[..n], view);
      RelistsMore(h[..n], h[n], view, places, Rewritten(LiveItems(h[..n], view)));
      assert h[..n] + [h[n]] == h;
      if h[n].live {
        places := places + [n];
        RewrittenSnoc(LiveItems(h[..n], view), LiveItem(h[n].key, view[h[n].key], h[n].attrs));
      }
    }
  }

  lemma RewrittenSnoc(items: seq<LiveItem>, it: LiveItem)
    ensures Rewritten(items + [it]) == Rewritten(items) + [Record(it.key, it.tensor, it.attrs, true)]
  {
  }

  /** What a compaction lists again: exactly the live records, in order, with their attributes and the current tensors. */
  lemma CompactedRecords(h: seq<Record>)
    requires DeadFirst(h)
    ensures exists places :: Relists(h, View(h), places, Rewritten(LiveItems(h, View(h))))
  {
    hide View, LiveItems, Rewritten, LiveRecords, Relists;
    forall p | 0 <= p < |h| && h[p].live ensures h[p].key in View(h) {
      SomeLive(h, p);
      LiveInView(h, h[p].key);
    }
    var places := LiveItemsRelist(h, View(h));
  }

  // ---------- the history that a table over a log spells out ----------

  function ReadTensor(env: Env, log: Bytes, e: TocEntry): Result<Tensor, TpxError> {
    var data :- ReadChunks(env, log, e.chunkRefs, e.dtype);
    Success(Tensor(e.dtype, e.shape, data))
  }

  ghost predicate Readable(env: Env, log: Bytes, es: seq<TocEntry>) {
    forall i :: 0 <= i < |es| ==> ReadTensor(env, log, es[i]).Success?
  }

  ghost function RecordOf(env: Env, log: Bytes, e: TocEntry): Record
    requires ReadTensor(env, log, e).Success?
  {
    Record(e.key, ReadTensor(env, log, e).value, e.attrs, e.tombstone == 0)
  }

  ghost function HistoryOf(env: Env, log: Bytes, es: seq<TocEntry>): (h: seq<Record>)
    requires Readable(env, log, es)
    ensures |h| == |es|
  {
    seq(|es|, i requires 0 <= i < |es| => RecordOf(env, log, es[i]))
  }

  /** Growing the log keeps every tensor readable and its history the same. */
  lemma HistoryGrows(env: Env, log: Bytes, longer: Bytes, es: seq<TocEntry>)
    requires log <= longer && Readable(env, log, es)
    ensures Readable(env, longer, es) && HistoryOf(env, longer, es) == HistoryOf(env, log, es)
  {
    hide ReadChunks;
    forall i | 0 <= i < |es| ensures ReadTensor(env, longer, es[i]) == ReadTensor(env, log, es[i]) {
      ReadChunksGrows(env, log, longer, es[i].chunkRefs, es[i].dtype);
    }
  }

  lemma HistoryAppend(env: Env, log: Bytes, es: seq<TocEntry>, e: TocEntry)
    requires Readable(env, log, es) && ReadTensor(env, log, e).Success?
    ensures Readable(env, log, es + [e])
    ensures HistoryOf(env, log, es + [e]) == HistoryOf(env, log, es) + [RecordOf(env, log, e)]
  {
    hide ReadTensor;
  }

  lemma HistoryTombstone(env: Env, log: Bytes, es: seq<TocEntry>, key: Bytes)
    requires Readable(env, log, es)
    ensures Readable(env, log, Tombstoned(es, key))
    ensures HistoryOf(env, log, Tombstoned(es, key)) == Dead(HistoryOf(env, log, es), key)
  {
    hide ReadChunks;
    var dead := Tombstoned(es, key);
    forall i | 0 <= i < |es| ensures ReadTensor(env, log, dead[i]) == ReadTensor(env, log, es[i]) {
    }
  }

  lemma HistoryPrefix(env: Env, log: Bytes, es: seq<TocEntry>, n: nat)
    requires Readable(env, log, es) && n <= |es|
    ensures Readable(env, log, es[..n]) && HistoryOf(env, log, es[..n]) == HistoryOf(env, log, es)[..n]
  {
    hide ReadTensor;
  }

  /** The table's current entry of a key reads as the current tensor of the history. */
  lemma {:induction false} FindIsView(env: Env, log: Bytes, es: seq<TocEntry>, key: Bytes)
    requires Readable(env, log, es)
    ensures var v := View(HistoryOf(env, log, es));
            && (Find(es, key).Some? <==> key in v)
            && (key in v ==> ReadTensor(env, log, Find(es, key).value) == Success(v[key]))
  {
    hide ReadTensor;
    if |es| > 0 {
      HistoryPrefix(env, log, es, |es| - 1);
      FindIsView(env, log, es[..|es| - 1], key);
    }
  }

  function EntriesOf(es: seq<TocEntry>, key: Bytes): seq<TocEntry> {
    if |es| == 0 then []
    else if es[|es| - 1].key == key then EntriesOf(es[..|es| - 1], key) + [es[|es| - 1]]
    else EntriesOf(es[..|es| - 1], key)
  }

  /** Filtering the table by key is filtering the history by key. */
  lemma {:induction false} EntriesAreRecords(env: Env, log: Bytes, es: seq<TocEntry>, key: Bytes)
    requires Readable(env, log, es)
    ensures Readable(env, log, EntriesOf(es, key))
    ensures HistoryOf(env, log, EntriesOf(es, key)) == KeyRecords(HistoryOf(env, log, es), key)
  {
    hide ReadTensor;
    if |es| > 0 {
      var init := es[..|es| - 1];
      HistoryPrefix(env, log, es, |es| - 1);
      EntriesAreRecords(env, log, init, key);
      if es[|es| - 1].key == key {
        HistoryAppend(env, log, EntriesOf(init, key), es[|es| - 1]);
      }
    }
  }
}

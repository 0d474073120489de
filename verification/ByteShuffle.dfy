// Transposition of the bytes of equal-sized elements, with an unaligned tail left in place
// (crates/tpx-filter/src/byte_shuffle.rs).

module ByteShuffle {
  import opened Types
  import opened Arithmetic

  // ---------- a matrix of `rows` by `columns`, stored row after row ----------

  /** Where cell (`i`, `b`) stands. */
  lemma Cell(rows: nat, columns: nat, i: nat, b: nat)
    requires i < rows && b < columns
    ensures i * columns + b < rows * columns
    ensures (i * columns + b) / columns == i && (i * columns + b) % columns == b
  {
    MulMonotone(columns, i + 1, rows);
    DivModUnique(i * columns + b, columns, i, b);
  }

  /** The position in the transposed matrix, `columns` rows of `rows`, of the byte at `p`. */
  function Across(p: nat, rows: nat, columns: nat): (q: nat)
    requires p < rows * columns
    ensures q < rows * columns
  {
    assert columns > 0;
    RowInRange(p, rows, columns);
    Cell(columns, rows, p % columns, p / columns);
    (p % columns) * rows + p / columns
  }

  lemma RowInRange(p: nat, rows: nat, columns: nat)
    requires p < rows * columns && columns > 0
    ensures p / columns < rows && p % columns < columns
  {
    MulMonotone(columns, rows, p / columns);
  }

  /** Transposing positions twice leads back. */
  lemma AcrossBack(p: nat, rows: nat, columns: nat)
    requires p < rows * columns
    ensures rows * columns == columns * rows && Across(Across(p, rows, columns), columns, rows) == p
  {
    assert columns > 0;
    RowInRange(p, rows, columns);
    Cell(columns, rows, p % columns, p / columns);
  }

  /** The matrix at the front of `data` transposed: position `p` of the result holds the byte across. */
  function Flip(data: Bytes, rows: nat, columns: nat): (r: Bytes)
    requires rows * columns <= |data|
    ensures |r| == |data|
  {
    seq(|data|, p requires 0 <= p < |data| =>
      if p < rows * columns then data[Across(p, rows, columns)] else data[p])
  }

  lemma FlipAt(data: Bytes, rows: nat, columns: nat, p: nat)
    requires rows * columns <= |data| && p < |data|
    ensures Flip(data, rows, columns)[p] == if p < rows * columns then data[Across(p, rows, columns)] else data[p]
  {
  }

  lemma FlipBack(data: Bytes, rows: nat, columns: nat)
    requires rows * columns <= |data|
    ensures columns * rows <= |data| && Flip(Flip(data, rows, columns), columns, rows) == data
  {
    hide Across, Flip;
    assert columns * rows == rows * columns;
    var there := Flip(data, rows, columns);
    forall p | 0 <= p < |data| ensures Flip(there, columns, rows)[p] == data[p] {
      FlipAt(there, columns, rows, p);
      if p < columns * rows {
        FlipAt(data, rows, columns, Across(p, columns, rows));
        AcrossBack(p, columns, rows);
      } else {
        FlipAt(data, rows, columns, p);
      }
    }
  }

  // ---------- the filter ----------

  function Count(data: Bytes, size: nat): (n: nat)
    requires size > 0
    ensures n * size <= |data| && size * n <= |data|
  {
    |data| / size
  }

  /** First bytes of all elements, then second bytes, and so on; the tail as it was. */
  function Shuffled(data: Bytes, size: nat): (r: Bytes)
    ensures |r| == |data|
  {
    if |data| == 0 || size <= 1 then data else Flip(data, size, Count(data, size))
  }

  function Unshuffled(data: Bytes, size: nat): (r: Bytes)
    ensures |r| == |data|
  {
    if |data| == 0 || size <= 1 then data else Flip(data, Count(data, size), size)
  }

  /** Each direction undoes the other, for every element size and every length. */
  lemma RoundTrip(data: Bytes, size: nat)
    ensures Unshuffled(Shuffled(data, size), size) == data
    ensures Shuffled(Unshuffled(data, size), size) == data
  {
    hide Flip;
    if |data| > 0 && size > 1 {
      FlipBack(data, size, Count(data, size));
      FlipBack(data, Count(data, size), size);
    }
  }

  /** What the shuffle is for: byte `b` of element `i` comes to stand in run `b` at place `i`. */
  lemma ShuffledAt(data: Bytes, size: nat, i: nat, b: nat)
    requires size > 1 && i < |data| / size && b < size
    ensures i * size + b < |data| && b * (|data| / size) + i < |data|
    ensures Shuffled(data, size)[b * (|data| / size) + i] == data[i * size + b]
  {
    var n := Count(data, size);
    assert n * size == size * n;
    Cell(n, size, i, b);
    Cell(size, n, b, i);
    FlipAt(data, size, n, b * n + i);
  }

  /** Byte `b` of each element stands in run `b`, and the bytes after the last whole element stay. */
  ghost predicate Runs(data: Bytes, out: Bytes, size: nat)
    requires size > 0
  {
    && |out| == |data|
    && (forall i, b :: 0 <= i < |data| / size && 0 <= b < size ==> Moved(data, out, size, i, b))
    && (forall p | |data| / size * size <= p < |data| :: out[p] == data[p])
  }

  ghost predicate Moved(data: Bytes, out: Bytes, size: nat, i: nat, b: nat)
    requires size > 0 && |out| == |data|
  {
    && i * size + b < |data| && b * (|data| / size) + i < |data|
    && out[b * (|data| / size) + i] == data[i * size + b]
  }

  lemma ShuffledRuns(data: Bytes, size: nat)
    requires size > 0
    ensures Runs(data, Shuffled(data, size), size)
  {
    hide Shuffled, Moved;
    var out := Shuffled(data, size);
    forall i, b | 0 <= i < |data| / size && 0 <= b < size ensures Moved(data, out, size, i, b) {
      MovedAt(data, size, i, b);
    }
    forall p | |data| / size * size <= p < |data| ensures out[p] == data[p] {
      if size > 1 {
        TailIs(data, size, p);
      }
    }
  }

  lemma MovedAt(data: Bytes, size: nat, i: nat, b: nat)
    requires size > 0 && i < |data| / size && b < size
    ensures Moved(data, Shuffled(data, size), size, i, b)
  {
    if size > 1 {
      ShuffledAt(data, size, i, b);
    }
  }

  // ---------- the loops ----------

  /** The first `limit` bytes of the shuffle are in place. */
  ghost predicate Done(out: Bytes, data: Bytes, size: nat, limit: nat) {
    |out| == |data| && limit <= |data| && forall p :: 0 <= p < limit ==> out[p] == Shuffled(data, size)[p]
  }

  lemma DoOne(was: Bytes, now: Bytes, data: Bytes, size: nat, limit: nat)
    requires Done(was, data, size, limit) && limit < |data|
    requires now == was[limit := Shuffled(data, size)[limit]]
    ensures Done(now, data, size, limit + 1)
  {
  }

  /** Where run `b` starts. */
  function RunStart(b: nat, n: nat): nat {
    b * n
  }

  lemma RunStarts(n: nat)
    ensures RunStart(0, n) == 0
    ensures forall b: nat :: RunStart(b + 1, n) == RunStart(b, n) + n
  {
    forall b: nat ensures RunStart(b + 1, n) == RunStart(b, n) + n {
      RunNext(b, n);
    }
  }

  lemma RunNext(b: nat, n: nat)
    ensures RunStart(b + 1, n) == RunStart(b, n) + n
  {
  }

  /** One run of the shuffle: byte `b` of every element. */
  method Gather(data: Bytes, size: nat, out: array<u8>, b: nat)
    requires size > 1 && b < size && out.Length == |data| > 0
    requires Done(out[..], data, size, RunStart(b, Count(data, size)))
    modifies out
    ensures Done(out[..], data, size, RunStart(b, Count(data, size)) + Count(data, size))
  {
    hide Shuffled, Count, Done;
    var numElements := Count(data, size);
    var destOffset := RunStart(b, numElements);
    var i := 0;
    while i < numElements
      invariant 0 <= i <= numElements
      invariant Done(out[..], data, size, destOffset + i)
    {
      CountIs(data, size);
      ShuffledAt(data, size, i, b);
      ghost var was := out[..];
      out[destOffset + i] := data[i * size + b];
      DoOne(was, out[..], data, size, destOffset + i);
      i := i + 1;
    }
  }

  lemma CountIs(data: Bytes, size: nat)
    requires size > 0
    ensures Count(data, size) == |data| / size
  {
  }

  lemma TailIs(data: Bytes, size: nat, p: nat)
    requires size > 1 && Count(data, size) * size <= p < |data|
    ensures Shuffled(data, size)[p] == data[p] && Unshuffled(data, size)[p] == data[p]
  {
    assert Count(data, size) * size == size * Count(data, size);
  }

  method Shuffle(data: Bytes, size: nat) returns (r: Bytes)
    ensures r == Shuffled(data, size)
  {
    if |data| == 0 || size <= 1 {
      return data;
    }
    hide Shuffled, Done, Count, RunStart;
    var numElements := Count(data, size);
    var out := new u8[|data|](_ => 0);
    NothingDone(out[..], data, size);
    RunStarts(numElements);
    var b := 0;
    while b < size
      invariant 0 <= b <= size
      invariant Done(out[..], data, size, RunStart(b, numElements))
    {
      Gather(data, size, out, b);
      b := b + 1;
    }
    ghost var whole := out[..];
    CopyTail(data, size, out);
    r := out[..];
    AllDone(whole, r, data, size, numElements);
  }

  /** The bytes behind the last whole element, copied as they are. */
  method CopyTail(data: Bytes, size: nat, out: array<u8>)
    requires size > 1 && out.Length == |data|
    modifies out
    ensures forall p :: 0 <= p < Count(data, size) * size ==> out[p] == old(out[p])
    ensures forall p :: Count(data, size) * size <= p < |data| ==> out[p] == data[p]
  {
    var remainder := |data| % size;
    if remainder > 0 {
      var tailStart := Count(data, size) * size;
      forall k | tailStart <= k < |data| {
        out[k] := data[k];
      }
    }
  }

  lemma NothingDone(out: Bytes, data: Bytes, size: nat)
    requires |out| == |data|
    ensures Done(out, data, size, 0)
  {
  }

  lemma AllDone(whole: Bytes, out: Bytes, data: Bytes, size: nat, n: nat)
    requires size > 1 && n == Count(data, size) && |data| == |whole| == |out|
    requires Done(whole, data, size, RunStart(size, n))
    requires forall p :: 0 <= p < n * size ==> out[p] == whole[p]
    requires forall p :: n * size <= p < |data| ==> out[p] == data[p]
    ensures out == Shuffled(data, size)
  {
    hide Shuffled;
    assert size * n == n * size;
    forall p | 0 <= p < |data| ensures out[p] == Shuffled(data, size)[p] {
      if p >= n * size {
        TailIs(data, size, p);
      }
    }
  }

  /** The bytes of the unshuffled elements that runs before byte position `b` provide. */
  ghost predicate Filled(out: Bytes, data: Bytes, size: nat, n: nat, b: nat, i: nat)
    requires size > 0 && n * size <= |data| == |out|
  {
    forall j, c :: 0 <= j < n && 0 <= c < size && (c < b || (c == b && j < i)) ==> CellFilled(out, data, size, n, j, c)
  }

  ghost predicate CellFilled(out: Bytes, data: Bytes, size: nat, n: nat, j: nat, c: nat)
    requires size > 0 && n * size <= |data| == |out|
  {
    InCell(n, size, j, c) && out[j * size + c] == Unshuffled(data, size)[j * size + c]
  }

  /** Cell (`j`, `c`) is within the whole elements. */
  predicate InCell(n: nat, size: nat, j: nat, c: nat) {
    j * size + c < n * size
  }

  lemma UnshuffledAt(data: Bytes, size: nat, i: nat, b: nat)
    requires size > 1 && i < Count(data, size) && b < size
    ensures i * size + b < |data| && b * Count(data, size) + i < |data|
    ensures Unshuffled(data, size)[i * size + b] == data[b * Count(data, size) + i]
  {
    var n := Count(data, size);
    assert n * size == size * n;
    Cell(n, size, i, b);
    Cell(size, n, b, i);
    FlipAt(data, n, size, i * size + b);
  }

  lemma FillOne(was: Bytes, now: Bytes, data: Bytes, size: nat, n: nat, b: nat, i: nat)
    requires size > 1 && n == Count(data, size) && |data| == |was| == |now| && i < n && b < size
    requires Filled(was, data, size, n, b, i)
    requires i * size + b < |data| && now == was[i * size + b := Unshuffled(data, size)[i * size + b]]
    ensures Filled(now, data, size, n, b, i + 1)
  {
    hide Unshuffled, Count;
    forall j, c | 0 <= j < n && 0 <= c < size && (c < b || (c == b && j < i + 1)) ensures CellFilled(now, data, size, n, j, c) {
      Cell(n, size, i, b);
      if j != i || c != b {
        assert CellFilled(was, data, size, n, j, c);
        OtherCell(n, size, i, b, j, c);
      }
    }
  }

  lemma OtherCell(n: nat, size: nat, i: nat, b: nat, j: nat, c: nat)
    requires i < n && b < size && j < n && c < size && (i != j || b != c)
    ensures i * size + b != j * size + c
  {
    Cell(n, size, i, b);
    Cell(n, size, j, c);
  }

  /** One run of the unshuffle: back to byte `b` of every element. */
  method Spread(data: Bytes, size: nat, out: array<u8>, b: nat)
    requires size > 1 && b < size && out.Length == |data| > 0
    requires Filled(out[..], data, size, Count(data, size), b, 0)
    modifies out
    ensures Filled(out[..], data, size, Count(data, size), b + 1, 0)
  {
    hide Filled, Unshuffled, Count;
    var numElements := Count(data, size);
    var srcOffset := b * numElements;
    var i := 0;
    while i < numElements
      invariant 0 <= i <= numElements
      invariant Filled(out[..], data, size, numElements, b, i)
    {
      UnshuffledAt(data, size, i, b);
      ghost var was := out[..];
      out[i * size + b] := data[srcOffset + i];
      FillOne(was, out[..], data, size, numElements, b, i);
      i := i + 1;
    }
    NextRun(out[..], data, size, numElements, b);
  }

  lemma NextRun(out: Bytes, data: Bytes, size: nat, n: nat, b: nat)
    requires size > 0 && n * size <= |data| == |out| && Filled(out, data, size, n, b, n)
    ensures Filled(out, data, size, n, b + 1, 0)
  {
  }

  method Unshuffle(data: Bytes, size: nat) returns (r: Bytes)
    ensures r == Unshuffled(data, size)
  {
    if |data| == 0 || size <= 1 {
      return data;
    }
    hide Unshuffled, Flip, Filled;
    var numElements := Count(data, size);
    var out := new u8[|data|](_ => 0);
    NothingFilled(out[..], data, size, numElements);
    var b := 0;
    while b < size
      invariant 0 <= b <= size
      invariant Filled(out[..], data, size, numElements, b, 0)
    {
      Spread(data, size, out, b);
      b := b + 1;
    }
    ghost var whole := out[..];
    CopyTail(data, size, out);
    r := out[..];
    AllFilled(whole, r, data, size, numElements);
  }

  lemma NothingFilled(out: Bytes, data: Bytes, size: nat, n: nat)
    requires size > 0 && n * size <= |data| == |out|
    ensures Filled(out, data, size, n, 0, 0)
  {
  }

  lemma AllFilled(whole: Bytes, out: Bytes, data: Bytes, size: nat, n: nat)
    requires size > 1 && n == Count(data, size) && |data| == |whole| == |out|
    requires Filled(whole, data, size, n, size, 0)
    requires forall p :: 0 <= p < n * size ==> out[p] == whole[p]
    requires forall p :: n * size <= p < |data| ==> out[p] == data[p]
    ensures out == Unshuffled(data, size)
  {
    hide Unshuffled, Count;
    forall p | 0 <= p < |data| ensures out[p] == Unshuffled(data, size)[p] {
      if p < n * size {
        RowInRange(p, n, size);
        assert CellFilled(whole, data, size, n, p / size, p % size);
        assert (p / size) * size + p % size == p;
      } else {
        TailIs(data, size, p);
      }
    }
  }
}

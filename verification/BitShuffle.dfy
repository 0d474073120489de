// Bit-plane transposition of a byte string (crates/tpx-filter/src/bit_shuffle.rs).

module BitShuffle {
  import opened Types
  import opened Arithmetic
  import opened Bits

  /** Bit `j` of a byte, bit 0 the least significant. */
  predicate HasBit(b: u8, j: nat)
    requires j < 8
  {
    ByteBits(b)[7 - j]
  }

  /** `b |= bit << j`. */
  function OrBit(b: u8, j: nat, bit: bool): u8
    requires j < 8
  {
    ByteFrom(ByteBits(b)[7 - j := ByteBits(b)[7 - j] || bit])
  }

  lemma OrBitHas(b: u8, j: nat, bit: bool)
    requires j < 8
    ensures forall k :: 0 <= k < 8 ==> HasBit(OrBit(b, j, bit), k) == (HasBit(b, k) || (k == j && bit))
  {
    ByteBitsFrom(ByteBits(b)[7 - j := ByteBits(b)[7 - j] || bit]);
  }

  /** A byte is its eight bits. */
  lemma SameBits(a: u8, b: u8)
    requires forall k :: 0 <= k < 8 ==> HasBit(a, k) == HasBit(b, k)
    ensures a == b
  {
    forall m | 0 <= m < 8 ensures ByteBits(a)[m] == ByteBits(b)[m] {
      assert HasBit(a, 7 - m) == HasBit(b, 7 - m);
    }
    assert ByteBits(a) == ByteBits(b);
    ByteFromBits(a);
    ByteFromBits(b);
  }

  lemma ZeroHas(k: nat)
    requires k < 8
    ensures !HasBit(0, k)
  {
    ZeroBits(8);
  }

  /** Bit `p` of the whole string. */
  predicate StringBit(s: Bytes, p: nat)
    requires p < 8 * |s|
  {
    HasBit(s[p / 8], p % 8)
  }

  // ---------- positions ----------

  /** Position `p` of the transposed string belongs to one of eight planes ... */
  function Plane(n: nat, p: nat): (k: nat)
    requires p < 8 * n
    ensures k < 8
  {
    MulMonotone(n, 8, p / n);
    p / n
  }

  /** ... and to one column of it. */
  function Column(n: nat, p: nat): (i: nat)
    requires p < 8 * n
    ensures i < n
  {
    p % n
  }

  lemma Position(n: nat, plane: nat, i: nat)
    requires i < n && plane < 8
    ensures plane * n + i < 8 * n && Plane(n, plane * n + i) == plane && Column(n, plane * n + i) == i
  {
    MulMonotone(n, plane, 7);
    DivModUnique(plane * n + i, n, plane, i);
  }

  /** Plane and column fix the position: `plane * n + i` is a bijection onto `0..8 * n`. */
  lemma PositionUnique(n: nat, p: nat, q: nat)
    requires p < 8 * n && q < 8 * n && Plane(n, p) == Plane(n, q) && Column(n, p) == Column(n, q)
    ensures p == q
  {
  }

  /** What bit `p` of the transposed string should be. */
  predicate PlaneBit(s: Bytes, p: nat)
    requires p < 8 * |s|
  {
    HasBit(s[Column(|s|, p)], Plane(|s|, p))
  }

  /** The eight planes one after the other. */
  function Shuffled(plain: Bytes): (planes: Bytes)
    ensures |planes| == |plain|
  {
    seq(|plain|, k requires 0 <= k < |plain| =>
      ByteFrom(seq(8, m requires 0 <= m < 8 => PlaneBit(plain, 8 * k + 7 - m))))
  }

  /** Byte `i` with its eight bits fetched from the planes. */
  function Unshuffled(planes: Bytes): (plain: Bytes)
    ensures |plain| == |planes|
  {
    seq(|planes|, i requires 0 <= i < |planes| =>
      ByteFrom(seq(8, m requires 0 <= m < 8 =>
        Position(|planes|, 7 - m, i); StringBit(planes, (7 - m) * |planes| + i))))
  }

  /** `planes` is the transposed form of `plain`. */
  ghost predicate Transposed(plain: Bytes, planes: Bytes) {
    |plain| == |planes| && forall p :: 0 <= p < 8 * |plain| ==> StringBit(planes, p) == PlaneBit(plain, p)
  }

  lemma ShuffledTransposes(plain: Bytes)
    ensures Transposed(plain, Shuffled(plain))
  {
    hide Plane, Column, ByteBits, ByteFrom;
    var planes := Shuffled(plain);
    forall p | 0 <= p < 8 * |plain| ensures StringBit(planes, p) == PlaneBit(plain, p) {
      var k := p / 8;
      var bits := seq(8, m requires 0 <= m < 8 => PlaneBit(plain, 8 * k + 7 - m));
      ByteBitsFrom(bits);
      assert planes[k] == ByteFrom(bits);
      assert bits[7 - p % 8] == PlaneBit(plain, 8 * k + 7 - (7 - p % 8));
    }
  }

  lemma UnshuffledTransposes(planes: Bytes)
    ensures Transposed(Unshuffled(planes), planes)
  {
    hide ByteBits, ByteFrom, StringBit, Plane, Column;
    var n, plain := |planes|, Unshuffled(planes);
    forall p | 0 <= p < 8 * n ensures StringBit(planes, p) == PlaneBit(plain, p) {
      UnshuffledBit(planes, p);
    }
  }

  lemma UnshuffledBit(planes: Bytes, p: nat)
    requires p < 8 * |planes|
    ensures PlaneBit(Unshuffled(planes), p) == StringBit(planes, p)
  {
    hide ByteBits, ByteFrom, StringBit, Plane, Column;
    var n := |planes|;
    var k, i := Plane(n, p), Column(n, p);
    Position(n, k, i);
    PositionUnique(n, p, k * n + i);
    var bits := seq(8, m requires 0 <= m < 8 =>
      Position(n, 7 - m, i); StringBit(planes, (7 - m) * n + i));
    ByteBitsFrom(bits);
    assert Unshuffled(planes)[i] == ByteFrom(bits);
    assert bits[7 - k] == StringBit(planes, (7 - (7 - k)) * n + i);
  }

  // ---------- a bijection ----------

  /** At most one plain string has a given transposed form. */
  lemma PlainUnique(a: Bytes, b: Bytes, planes: Bytes)
    requires Transposed(a, planes) && Transposed(b, planes)
    ensures a == b
  {
    hide StringBit, HasBit, Plane, Column;
    var n := |planes|;
    forall i | 0 <= i < n ensures a[i] == b[i] {
      forall k | 0 <= k < 8 ensures HasBit(a[i], k) == HasBit(b[i], k) {
        Position(n, k, i);
        assert PlaneBit(a, k * n + i) == StringBit(planes, k * n + i) == PlaneBit(b, k * n + i);
      }
      SameBits(a[i], b[i]);
    }
  }

  /** And no bit of the transposed form is left open. */
  lemma PlanesUnique(plain: Bytes, a: Bytes, b: Bytes)
    requires Transposed(plain, a) && Transposed(plain, b)
    ensures a == b
  {
    hide PlaneBit, HasBit;
    forall i | 0 <= i < |a| ensures a[i] == b[i] {
      forall k | 0 <= k < 8 ensures HasBit(a[i], k) == HasBit(b[i], k) {
        assert StringBit(a, 8 * i + k) == StringBit(b, 8 * i + k);
      }
      SameBits(a[i], b[i]);
    }
  }

  /** Unshuffling undoes shuffling and shuffling undoes unshuffling, for every length. */
  lemma RoundTrip(s: Bytes)
    ensures Unshuffled(Shuffled(s)) == s
    ensures Shuffled(Unshuffled(s)) == s
  {
    hide Transposed, Shuffled, Unshuffled;
    ShuffledTransposes(s);
    UnshuffledTransposes(Shuffled(s));
    PlainUnique(s, Unshuffled(Shuffled(s)), Shuffled(s));
    UnshuffledTransposes(s);
    ShuffledTransposes(Unshuffled(s));
    PlanesUnique(Unshuffled(s), s, Shuffled(Unshuffled(s)));
  }

  // ---------- by the arithmetic of bytes ----------

  /** Bit `j` of a byte stands for 2^j. */
  lemma HasBitIs(b: u8, j: nat)
    requires j < 8
    ensures HasBit(b, j) <==> (b as nat / Pow2(j)) % 2 == 1
  {
    ToBitsAt(b as nat, 8, 7 - j);
  }

  /** Each bit of each byte stands where the transposition puts it. */
  ghost predicate Planes(plain: Bytes, planes: Bytes) {
    |planes| == |plain| && forall i, k :: 0 <= i < |plain| && 0 <= k < 8 ==> Moved(plain, planes, i, k)
  }

  /** Bit `k` of byte `i` has become bit `(n * k + i) % 8` of byte `(n * k + i) / 8`: plane after plane, low bits first. */
  ghost predicate Moved(plain: Bytes, planes: Bytes, i: nat, k: nat)
    requires |planes| == |plain| && i < |plain| && k < 8
  {
    var p := |plain| * k + i;
    p / 8 < |plain| && (planes[p / 8] as nat / Pow2(p % 8)) % 2 == (plain[i] as nat / Pow2(k)) % 2
  }

  lemma ShuffledPlanes(plain: Bytes)
    ensures Planes(plain, Shuffled(plain))
  {
    hide Moved, Shuffled;
    forall i, k | 0 <= i < |plain| && 0 <= k < 8 ensures Moved(plain, Shuffled(plain), i, k) {
      BitMoves(plain, i, k);
    }
  }

  lemma BitMoves(plain: Bytes, i: nat, k: nat)
    requires i < |plain| && k < 8
    ensures Moved(plain, Shuffled(plain), i, k)
  {
    hide Shuffled, Plane, Column, HasBit, Pow2;
    var n, planes := |plain|, Shuffled(plain);
    Position(n, k, i);
    ShuffledTransposes(plain);
    Commute(n, k);
    BitLands(plain, planes, n * k + i, i, k);
  }

  lemma Commute(n: nat, k: nat)
    ensures n * k == k * n
  {
  }

  lemma BitLands(plain: Bytes, planes: Bytes, p: nat, i: nat, k: nat)
    requires Transposed(plain, planes) && p < 8 * |plain| && Plane(|plain|, p) == k && Column(|plain|, p) == i
    ensures (planes[p / 8] as nat / Pow2(p % 8)) % 2 == (plain[i] as nat / Pow2(k)) % 2
  {
    hide Plane, Column, HasBit, Pow2;
    assert StringBit(planes, p) == PlaneBit(plain, p);
    HasBitIs(planes[p / 8], p % 8);
    HasBitIs(plain[i], k);
  }

  // ---------- the loops ----------

  /** The shuffle's output once the bits before `p` are in place. */
  ghost predicate Scattered(out: Bytes, data: Bytes, p: nat) {
    |out| == |data| && forall q :: 0 <= q < 8 * |data| ==> StringBit(out, q) == (q < p && PlaneBit(data, q))
  }

  lemma ScatterBit(was: Bytes, now: Bytes, data: Bytes, p: nat)
    requires p < 8 * |data| && Scattered(was, data, p)
    requires now == was[p / 8 := OrBit(was[p / 8], p % 8, PlaneBit(data, p))]
    ensures Scattered(now, data, p + 1)
  {
    hide PlaneBit, OrBit, HasBit;
    OrBitHas(was[p / 8], p % 8, PlaneBit(data, p));
    forall q | 0 <= q < 8 * |data| ensures StringBit(now, q) == (q < p + 1 && PlaneBit(data, q)) {
      assert StringBit(was, q) == (q < p && PlaneBit(data, q));
      if q / 8 == p / 8 && q % 8 == p % 8 {
        assert q == p;
      }
    }
  }

  method ShufflePlane(data: Bytes, out: array<u8>, plane: nat)
    requires 0 < |data| == out.Length && plane < 8 && Scattered(out[..], data, plane * |data|)
    modifies out
    ensures Scattered(out[..], data, plane * |data| + |data|)
  {
    hide Scattered, OrBit, HasBit, Plane, Column;
    var n := |data|;
    var i := 0;
    while i < n
      invariant 0 <= i <= n && Scattered(out[..], data, plane * n + i)
    {
      var bit := HasBit(data[i], plane);
      var destBitPos := plane * n + i;
      Position(n, plane, i);
      var destByte, destBitInByte := destBitPos / 8, destBitPos % 8;
      if destByte < n {
        ghost var was := out[..];
        out[destByte] := OrBit(out[destByte], destBitInByte, bit);
        ScatterBit(was, out[..], data, destBitPos);
      }
      i := i + 1;
    }
  }

  /** `bit_shuffle`: the guard on the target byte never drops a bit. */
  method Shuffle(data: Bytes) returns (planes: Bytes)
    ensures planes == Shuffled(data)
  {
    hide Scattered, Shuffled, Transposed;
    if |data| == 0 {
      return [];
    }
    var n := |data|;
    var out := new u8[n](_ => 0);
    NothingScattered(out[..], data);
    var plane := 0;
    while plane < 8
      invariant 0 <= plane <= 8 && Scattered(out[..], data, plane * n)
    {
      ShufflePlane(data, out, plane);
      plane := plane + 1;
    }
    planes := out[..];
    AllScattered(planes, data);
    ShuffledTransposes(data);
    PlanesUnique(data, planes, Shuffled(data));
  }

  lemma NothingScattered(out: Bytes, data: Bytes)
    requires |out| == |data| && forall i :: 0 <= i < |out| ==> out[i] == 0
    ensures Scattered(out, data, 0)
  {
    hide HasBit;
    forall q | 0 <= q < 8 * |data| ensures !StringBit(out, q) {
      ZeroHas(q % 8);
    }
  }

  lemma AllScattered(out: Bytes, data: Bytes)
    requires Scattered(out, data, 8 * |data|)
    ensures Transposed(data, out)
  {
  }

  /** The unshuffle's output once the bits before `p` are fetched. */
  ghost predicate Gathered(out: Bytes, data: Bytes, p: nat) {
    |out| == |data| && forall q :: 0 <= q < 8 * |data| ==> PlaneBit(out, q) == (q < p && StringBit(data, q))
  }

  lemma GatherBit(was: Bytes, now: Bytes, data: Bytes, p: nat)
    requires p < 8 * |data| && Gathered(was, data, p)
    requires var i, k := Column(|data|, p), Plane(|data|, p); now == was[i := OrBit(was[i], k, StringBit(data, p))]
    ensures Gathered(now, data, p + 1)
  {
    hide StringBit, OrBit, HasBit, Plane, Column;
    var n := |data|;
    var i, k := Column(n, p), Plane(n, p);
    OrBitHas(was[i], k, StringBit(data, p));
    forall q | 0 <= q < 8 * n ensures PlaneBit(now, q) == (q < p + 1 && StringBit(data, q)) {
      assert PlaneBit(was, q) == (q < p && StringBit(data, q));
      if Column(n, q) == i && Plane(n, q) == k {
        PositionUnique(n, p, q);
      }
    }
  }

  method UnshufflePlane(data: Bytes, out: array<u8>, plane: nat)
    requires 0 < |data| == out.Length && plane < 8 && Gathered(out[..], data, plane * |data|)
    modifies out
    ensures Gathered(out[..], data, plane * |data| + |data|)
  {
    hide Gathered, OrBit, HasBit, Plane, Column;
    var n := |data|;
    var i := 0;
    while i < n
      invariant 0 <= i <= n && Gathered(out[..], data, plane * n + i)
    {
      var srcBitPos := plane * n + i;
      Position(n, plane, i);
      var srcByte, srcBitInByte := srcBitPos / 8, srcBitPos % 8;
      if srcByte < n {
        var bit := HasBit(data[srcByte], srcBitInByte);
        ghost var was := out[..];
        out[i] := OrBit(out[i], plane, bit);
        GatherBit(was, out[..], data, srcBitPos);
      }
      i := i + 1;
    }
  }

  /** `bit_unshuffle`. */
  method Unshuffle(data: Bytes) returns (plain: Bytes)
    ensures plain == Unshuffled(data)
  {
    hide Gathered, Unshuffled, Transposed;
    if |data| == 0 {
      return [];
    }
    var n := |data|;
    var out := new u8[n](_ => 0);
    NothingGathered(out[..], data);
    var plane := 0;
    while plane < 8
      invariant 0 <= plane <= 8 && Gathered(out[..], data, plane * n)
    {
      UnshufflePlane(data, out, plane);
      plane := plane + 1;
    }
    plain := out[..];
    AllGathered(plain, data);
    UnshuffledTransposes(data);
    PlainUnique(plain, Unshuffled(data), data);
  }

  lemma NothingGathered(out: Bytes, data: Bytes)
    requires |out| == |data| && forall i :: 0 <= i < |out| ==> out[i] == 0
    ensures Gathered(out, data, 0)
  {
    hide HasBit, Plane, Column;
    forall q | 0 <= q < 8 * |data| ensures !PlaneBit(out, q) {
      ZeroHas(Plane(|data|, q));
    }
  }

  lemma AllGathered(out: Bytes, data: Bytes)
    requires Gathered(out, data, 8 * |data|)
    ensures Transposed(out, data)
  {
  }
}

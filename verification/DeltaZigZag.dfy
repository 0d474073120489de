// Differences of consecutive integers, folded so that small ones of either sign become small
// (crates/tpx-filter/src/delta_zigzag.rs).

module DeltaZigZag {
  import opened Types
  import opened Arithmetic
  import LittleEndian

  // An integer of `width` bytes is its unsigned pattern below `m == 256^width`; arithmetic wraps at `m`.

  /** `wrapping_sub`. */
  function WrapSub(a: nat, b: nat, m: nat): (r: nat)
    requires a < m && b < m
    ensures r < m
  {
    if a >= b then a - b else a + m - b
  }

  /** `wrapping_add`. */
  function WrapAdd(a: nat, b: nat, m: nat): (r: nat)
    requires a < m && b < m
    ensures r < m
  {
    if a + b < m then a + b else a + b - m
  }

  /** Exclusive or with all ones. */
  function Complement(n: nat, m: nat): (r: nat)
    requires n < m
    ensures r < m
  {
    m - 1 - n
  }

  /** `(delta << 1) ^ (delta >> (bits - 1))`: the arithmetic shift is all ones exactly for a set sign bit. */
  function ZigZag(delta: nat, m: nat): (r: nat)
    requires delta < m && m % 2 == 0
    ensures r < m
  {
    var shifted := (2 * delta) % m;
    if 2 * delta < m then shifted else Complement(shifted, m)
  }

  /** `(z >> 1) ^ -(z & 1)`. */
  function UnZigZag(z: nat, m: nat): (r: nat)
    requires z < m && m % 2 == 0
    ensures r < m
  {
    if z % 2 == 0 then z / 2 else Complement(z / 2, m)
  }

  /** The signed value of a pattern. */
  function Signed(n: nat, m: nat): int
    requires n < m
  {
    if 2 * n < m then n else n - m
  }

  lemma FoldBack(delta: nat, m: nat)
    requires delta < m && m % 2 == 0
    ensures UnZigZag(ZigZag(delta, m), m) == delta
    ensures ZigZag(delta, m) == if Signed(delta, m) >= 0 then 2 * Signed(delta, m) else -2 * Signed(delta, m) - 1
  {
    if 2 * delta < m {
      DivModUnique(2 * delta, m, 0, 2 * delta);
    } else {
      DivModUnique(2 * delta, m, 1, 2 * delta - m);
    }
  }

  lemma UnfoldBack(z: nat, m: nat)
    requires z < m && m % 2 == 0
    ensures ZigZag(UnZigZag(z, m), m) == z
  {
    var delta := UnZigZag(z, m);
    if z % 2 == 0 {
      DivModUnique(2 * delta, m, 0, 2 * delta);
    } else {
      DivModUnique(2 * delta, m, 1, 2 * delta - m);
    }
  }

  // ---------- byte strings ----------

  lemma Modulus(width: nat)
    requires width >= 1
    ensures LittleEndian.Pow256(width) % 2 == 0
  {
  }

  function Value(bs: Bytes): (n: nat)
    ensures n < LittleEndian.Pow256(|bs|)
  {
    LittleEndian.DecodeBound(bs);
    LittleEndian.Decode(bs)
  }

  function Folded(val: nat, prev: nat, width: nat): (bs: Bytes)
    requires width >= 1 && val < LittleEndian.Pow256(width) && prev < LittleEndian.Pow256(width)
    ensures |bs| == width
  {
    var m := LittleEndian.Pow256(width);
    Modulus(width);
    LittleEndian.Encode(ZigZag(WrapSub(val, prev, m), m), width)
  }

  function Unfolded(z: nat, prev: nat, width: nat): (val: nat)
    requires width >= 1 && z < LittleEndian.Pow256(width) && prev < LittleEndian.Pow256(width)
    ensures val < LittleEndian.Pow256(width)
  {
    var m := LittleEndian.Pow256(width);
    Modulus(width);
    WrapAdd(prev, UnZigZag(z, m), m)
  }

  /** Whole elements after an element `prev`; the tail stays as it is. */
  function Encoded(data: Bytes, width: nat, prev: nat): (out: Bytes)
    requires width >= 1 && prev < LittleEndian.Pow256(width)
    ensures |out| == |data|
    decreases |data|
  {
    if |data| < width then data
    else
      var val := Value(data[..width]);
      Folded(val, prev, width) + Encoded(data[width..], width, val)
  }

  function Decoded(data: Bytes, width: nat, prev: nat): (out: Bytes)
    requires width >= 1 && prev < LittleEndian.Pow256(width)
    ensures |out| == |data|
    decreases |data|
  {
    if |data| < width then data
    else
      var val := Unfolded(Value(data[..width]), prev, width);
      LittleEndian.Encode(val, width) + Decoded(data[width..], width, val)
  }

  lemma ValueOf(n: nat, width: nat)
    requires n < LittleEndian.Pow256(width)
    ensures Value(LittleEndian.Encode(n, width)) == n
  {
    LittleEndian.DecodeEncode(n, width);
    DivModUnique(n, LittleEndian.Pow256(width), 0, n);
  }

  lemma UnfoldFolded(val: nat, prev: nat, width: nat)
    requires width >= 1 && val < LittleEndian.Pow256(width) && prev < LittleEndian.Pow256(width)
    ensures Unfolded(Value(Folded(val, prev, width)), prev, width) == val
  {
    hide ZigZag, UnZigZag;
    var m := LittleEndian.Pow256(width);
    Modulus(width);
    var delta := WrapSub(val, prev, m);
    ValueOf(ZigZag(delta, m), width);
    FoldBack(delta, m);
  }

  lemma FoldUnfolded(z: nat, prev: nat, width: nat)
    requires width >= 1 && z < LittleEndian.Pow256(width) && prev < LittleEndian.Pow256(width)
    ensures Folded(Unfolded(z, prev, width), prev, width) == LittleEndian.Encode(z, width)
  {
    hide ZigZag, UnZigZag;
    var m := LittleEndian.Pow256(width);
    Modulus(width);
    UnfoldBack(z, m);
  }

  lemma {:induction false} DecodeEncoded(data: Bytes, width: nat, prev: nat)
    requires width >= 1 && prev < LittleEndian.Pow256(width)
    ensures Decoded(Encoded(data, width, prev), width, prev) == data
    decreases |data|
  {
    hide Value, Folded, Unfolded;
    if |data| >= width {
      var head := data[..width];
      var val := Value(head);
      var out := Encoded(data, width, prev);
      assert out[..width] == Folded(val, prev, width) && out[width..] == Encoded(data[width..], width, val);
      UnfoldFolded(val, prev, width);
      WholeValue(head);
      DecodeEncoded(data[width..], width, val);
      assert head + data[width..] == data;
    }
  }

  lemma WholeValue(bs: Bytes)
    ensures LittleEndian.Encode(Value(bs), |bs|) == bs
  {
    LittleEndian.EncodeDecode(bs);
  }

  lemma {:induction false} EncodeDecoded(data: Bytes, width: nat, prev: nat)
    requires width >= 1 && prev < LittleEndian.Pow256(width)
    ensures Encoded(Decoded(data, width, prev), width, prev) == data
    decreases |data|
  {
    hide Value, Folded, Unfolded;
    if |data| >= width {
      var head := data[..width];
      var z := Value(head);
      var val := Unfolded(z, prev, width);
      var out := Decoded(data, width, prev);
      assert out[..width] == LittleEndian.Encode(val, width) && out[width..] == Decoded(data[width..], width, val);
      ValueOf(val, width);
      FoldUnfolded(z, prev, width);
      WholeValue(head);
      EncodeDecoded(data[width..], width, val);
      assert head + data[width..] == data;
    }
  }

  // ---------- the filter ----------

  /** Integers and booleans are filtered by their width; floats pass through. */
  predicate Filtered(dtype: DTypeId) {
    !(dtype == Float64 || dtype == Float32 || dtype == Float16 || dtype == BFloat16)
  }

  function Apply(data: Bytes, dtype: DTypeId): Bytes {
    LittleEndian.Widths();
    if Filtered(dtype) then Encoded(data, ElementSize(dtype), 0) else data
  }

  function Revert(data: Bytes, dtype: DTypeId): Bytes {
    if Filtered(dtype) then Decoded(data, ElementSize(dtype), 0) else data
  }

  /** Each direction undoes the other, for every type and every length. */
  lemma RoundTrip(data: Bytes, dtype: DTypeId)
    ensures Revert(Apply(data, dtype), dtype) == data
    ensures Apply(Revert(data, dtype), dtype) == data
  {
    if Filtered(dtype) {
      DecodeEncoded(data, ElementSize(dtype), 0);
      EncodeDecoded(data, ElementSize(dtype), 0);
    }
  }

  // ---------- what stands in the output ----------

  /** Element `j` as a number. */
  function Element(data: Bytes, width: nat, j: nat): (n: nat)
    requires width >= 1 && j * width + width <= |data|
    ensures n < LittleEndian.Pow256(width)
  {
    Value(data[j * width..j * width + width])
  }

  /** The element before; the first one has `prev` before it. */
  function Before(data: Bytes, width: nat, prev: nat, j: nat): (n: nat)
    requires width >= 1 && j * width + width <= |data| && prev < LittleEndian.Pow256(width)
    ensures n < LittleEndian.Pow256(width)
  {
    if j == 0 then prev
    else
      assert j * width == (j - 1) * width + width;
      Element(data, width, j - 1)
  }

  /** Small numbers of either sign become small: 0, -1, 1, -2, 2, ... are written as 0, 1, 2, 3, 4, ... */
  predicate StandsFor(z: nat, d: int) {
    z == if d >= 0 then 2 * d else -2 * d - 1
  }

  /** `z` stands for the signed `d` that leads from `prev` to `val`, up to a multiple of `m`, and for no other. */
  ghost predicate IsStep(val: nat, prev: nat, z: nat, m: nat)
    requires m > 0
  {
    forall d: int | 0 <= 2 * d + m < 2 * m :: StandsFor(z, d) <==> (val - prev - d) % m == 0
  }

  lemma FoldedIsStep(val: nat, prev: nat, m: nat)
    requires val < m && prev < m && m % 2 == 0
    ensures IsStep(val, prev, ZigZag(WrapSub(val, prev, m), m), m)
  {
    hide ZigZag;
    var delta := WrapSub(val, prev, m);
    var s := Signed(delta, m);
    FoldBack(delta, m);
    forall d: int | 0 <= 2 * d + m < 2 * m
      ensures StandsFor(ZigZag(delta, m), d) <==> (val - prev - d) % m == 0
    {
      Congruent(val - prev, s, d, m);
    }
  }

  /** A number has one representative around zero. */
  lemma Congruent(n: int, s: int, d: int, m: int)
    requires m > 0 && -m <= 2 * s < m && -m <= 2 * d < m && -m < n < m
    requires n == s || n == s + m || n == s - m
    ensures (n - d) % m == 0 <==> d == s
  {
    if d == s {
      DivModUnique(n - d, m, if n == s then 0 else if n == s + m then 1 else -1, 0);
    } else if (n - d) % m == 0 {
      var q := (n - d) / m;
      assert n - d == m * q;
      var k := if n == s then q else if n == s + m then q - 1 else q + 1;
      assert s - d == m * k;
      DivModUnique(s - d, m, k, 0);
      if s > d {
        DivModUnique(s - d, m, 0, s - d);
      } else {
        DivModUnique(s - d, m, -1, s - d + m);
      }
    }
  }

  /** Every whole element is replaced by its step, and a shorter rest stays as it is. */
  ghost predicate Steps(data: Bytes, out: Bytes, width: nat, prev: nat)
    requires width >= 1 && prev < LittleEndian.Pow256(width)
  {
    && |out| == |data|
    && (forall j: nat | j * width + width <= |data| ::
          IsStep(Element(data, width, j), Before(data, width, prev, j), Element(out, width, j), LittleEndian.Pow256(width)))
    && (forall i | |data| / width * width <= i < |data| :: out[i] == data[i])
  }

  lemma ElementBehind(data: Bytes, width: nat, prev: nat, j: nat)
    requires width >= 1 && width <= |data| && (j + 1) * width + width <= |data| && prev < LittleEndian.Pow256(width)
    ensures j * width + width <= |data[width..]|
    ensures Element(data, width, j + 1) == Element(data[width..], width, j)
    ensures Before(data, width, prev, j + 1) == Before(data[width..], width, Element(data, width, 0), j)
  {
    hide Value;
    var rest := data[width..];
    assert (j + 1) * width == j * width + width;
    assert rest[j * width..j * width + width] == data[(j + 1) * width..(j + 1) * width + width];
    if j > 0 {
      assert j * width == (j - 1) * width + width;
      assert rest[(j - 1) * width..(j - 1) * width + width] == data[j * width..j * width + width];
    }
  }

  lemma {:induction false} ElementIsStep(data: Bytes, width: nat, prev: nat, j: nat)
    requires width >= 1 && prev < LittleEndian.Pow256(width) && j * width + width <= |data|
    ensures IsStep(Element(data, width, j), Before(data, width, prev, j),
                   Element(Encoded(data, width, prev), width, j), LittleEndian.Pow256(width))
    decreases j
  {
    hide IsStep, ZigZag, WrapSub, Value;
    var out := Encoded(data, width, prev);
    var val := Value(data[..width]);
    var bytes := Folded(val, prev, width);
    assert out[..width] == bytes && out[width..] == Encoded(data[width..], width, val);
    if j == 0 {
      var m := LittleEndian.Pow256(width);
      Modulus(width);
      assert data[0..0 + width] == data[..width] && out[0..0 + width] == bytes;
      ValueOf(ZigZag(WrapSub(val, prev, m), m), width);
      FoldedIsStep(val, prev, m);
    } else {
      ElementBehind(data, width, prev, j - 1);
      ElementBehind(out, width, prev, j - 1);
      ElementIsStep(data[width..], width, val, j - 1);
    }
  }

  lemma {:induction false} RestStays(data: Bytes, width: nat, prev: nat, i: nat)
    requires width >= 1 && prev < LittleEndian.Pow256(width) && |data| / width * width <= i < |data|
    ensures Encoded(data, width, prev)[i] == data[i]
    decreases |data|
  {
    hide Folded, Value;
    if |data| >= width {
      var rest := data[width..];
      DivModUnique(|data|, width, |rest| / width + 1, |rest| % width);
      assert (|rest| / width + 1) * width == |rest| / width * width + width;
      RestStays(rest, width, Value(data[..width]), i - width);
    }
  }

  lemma EncodedIsSteps(data: Bytes, width: nat)
    requires width >= 1
    ensures Steps(data, Encoded(data, width, 0), width, 0)
  {
    hide Encoded, IsStep;
    var out := Encoded(data, width, 0);
    forall j: nat | j * width + width <= |data|
      ensures IsStep(Element(data, width, j), Before(data, width, 0, j), Element(out, width, j), LittleEndian.Pow256(width))
    {
      ElementIsStep(data, width, 0, j);
    }
    forall i | |data| / width * width <= i < |data| ensures out[i] == data[i] {
      RestStays(data, width, 0, i);
    }
  }

  /** What the filter writes for each type, and what it makes of a block that was written so. */
  lemma StepsByType(data: Bytes, dtype: DTypeId)
    ensures match dtype
            case Int64 | UInt64 => Steps(data, Apply(data, dtype), 8, 0)
            case Int32 | UInt32 => Steps(data, Apply(data, dtype), 4, 0)
            case Int16 | UInt16 => Steps(data, Apply(data, dtype), 2, 0)
            case Int8 | UInt8 | Bool => Steps(data, Apply(data, dtype), 1, 0)
            case Float64 | Float32 | Float16 | BFloat16 => Apply(data, dtype) == data
  {
    hide Steps, Encoded;
    if Filtered(dtype) {
      EncodedIsSteps(data, ElementSize(dtype));
    }
  }

  // ---------- the loops ----------

  /** Where element `i` starts. */
  function Offset(i: nat, width: nat): nat {
    i * width
  }

  function Count(len: nat, width: nat): nat
    requires width >= 1
  {
    len / width
  }

  function Remainder(len: nat, width: nat): nat
    requires width >= 1
  {
    len % width
  }

  lemma OffsetStep(i: nat, width: nat, len: nat)
    requires width >= 1 && i < Count(len, width)
    ensures Offset(i, width) + width <= len && Offset(i + 1, width) == Offset(i, width) + width
  {
    assert width * (i + 1) <= width * (len / width);
  }

  lemma OffsetEnds(len: nat, width: nat)
    requires width >= 1
    ensures Offset(0, width) == 0
    ensures Count(len, width) == 0 ==> len < width
    ensures var tail := Offset(Count(len, width), width);
            tail <= len && len - tail == Remainder(len, width) < width
  {
    assert (len / width) * width == width * (len / width);
  }

  /** The elements before `start` are done, and `prev` is the one just before it. */
  ghost predicate EncodedTo(out: Bytes, data: Bytes, width: nat, start: nat, prev: nat) {
    width >= 1 && start <= |data| == |out| && prev < LittleEndian.Pow256(width)
    && out[..start] + Encoded(data[start..], width, prev) == Encoded(data, width, 0)
  }

  lemma EncodeStep(was: Bytes, now: Bytes, data: Bytes, width: nat, start: nat, prev: nat)
    requires EncodedTo(was, data, width, start, prev) && start + width <= |data|
    requires now == was[..start] + Folded(Value(data[start..start + width]), prev, width) + was[start + width..]
    ensures EncodedTo(now, data, width, start + width, Value(data[start..start + width]))
  {
    hide Value, Folded, LittleEndian.Pow256;
    var rest := data[start..];
    assert rest[..width] == data[start..start + width] && rest[width..] == data[start + width..];
    var bytes := Folded(Value(data[start..start + width]), prev, width);
    assert now[..start + width] == was[..start] + bytes;
    assert Encoded(rest, width, prev) == bytes + Encoded(data[start + width..], width, Value(data[start..start + width]));
  }

  lemma EncodedToTail(out: Bytes, data: Bytes, width: nat, start: nat, prev: nat)
    requires EncodedTo(out, data, width, start, prev) && |data| - start < width
    ensures out[..start] + data[start..] == Encoded(data, width, 0)
  {
  }

  method EncodeElement(data: Bytes, width: nat, start: nat, prev: nat, out: Bytes) returns (now: Bytes, val: nat)
    requires EncodedTo(out, data, width, start, prev) && start + width <= |data| == |out|
    requires width >= 1 && prev < LittleEndian.Pow256(width)
    ensures val < LittleEndian.Pow256(width) && |now| == |data| && EncodedTo(now, data, width, start + width, val)
  {
    hide *;
    val := Value(data[start..start + width]);
    var zigzag := Folded(val, prev, width);
    now := out[..start] + zigzag + out[start + width..];
    EncodeStep(out, now, data, width, start, prev);
  }

  method EncodeElements(data: Bytes, width: nat) returns (out: Bytes)
    requires width >= 1
    ensures out == Encoded(data, width, 0)
  {
    hide Offset, Count, Remainder, LittleEndian.Pow256, EncodedTo, LittleEndian.Zeros;
    OffsetEnds(|data|, width);
    var count := Count(|data|, width);
    if count == 0 {
      return data;
    }
    hide *;
    out := LittleEndian.Zeros(|data|);
    var prev: nat := 0;
    EncodedToStart(out, data, width);
    var i := 0;
    while i < count
      invariant 0 <= i <= count && |out| == |data| && prev < LittleEndian.Pow256(width)
      invariant EncodedTo(out, data, width, Offset(i, width), prev)
    {
      var start := Offset(i, width);
      OffsetStep(i, width, |data|);
      out, prev := EncodeElement(data, width, start, prev, out);
      i := i + 1;
    }
    var tail := Offset(count, width);
    EncodedToTail(out, data, width, tail, prev);
    if Remainder(|data|, width) > 0 {
      out := out[..tail] + data[tail..];
    } else {
      assert out[..tail] + data[tail..] == out;
    }
  }

  lemma EncodedToStart(out: Bytes, data: Bytes, width: nat)
    requires width >= 1 && |out| == |data|
    ensures EncodedTo(out, data, width, 0, 0)
  {
    assert out[..0] == [] && data[0..] == data;
  }

  /** The elements before `start` are done, and `prev` is the one just before it. */
  ghost predicate DecodedTo(out: Bytes, data: Bytes, width: nat, start: nat, prev: nat) {
    width >= 1 && start <= |data| == |out| && prev < LittleEndian.Pow256(width)
    && out[..start] + Decoded(data[start..], width, prev) == Decoded(data, width, 0)
  }

  lemma DecodeStep(was: Bytes, now: Bytes, data: Bytes, width: nat, start: nat, prev: nat)
    requires DecodedTo(was, data, width, start, prev) && start + width <= |data|
    requires now == was[..start] + LittleEndian.Encode(Unfolded(Value(data[start..start + width]), prev, width), width) + was[start + width..]
    ensures DecodedTo(now, data, width, start + width, Unfolded(Value(data[start..start + width]), prev, width))
  {
    hide Value, Unfolded, LittleEndian.Pow256, LittleEndian.Encode;
    var rest := data[start..];
    assert rest[..width] == data[start..start + width] && rest[width..] == data[start + width..];
    var bytes := LittleEndian.Encode(Unfolded(Value(data[start..start + width]), prev, width), width);
    assert now[..start + width] == was[..start] + bytes;
    assert Decoded(rest, width, prev) == bytes + Decoded(data[start + width..], width, Unfolded(Value(data[start..start + width]), prev, width));
  }

  lemma DecodedToTail(out: Bytes, data: Bytes, width: nat, start: nat, prev: nat)
    requires DecodedTo(out, data, width, start, prev) && |data| - start < width
    ensures out[..start] + data[start..] == Decoded(data, width, 0)
  {
  }

  method DecodeElement(data: Bytes, width: nat, start: nat, prev: nat, out: Bytes) returns (now: Bytes, val: nat)
    requires DecodedTo(out, data, width, start, prev) && start + width <= |data| == |out|
    requires width >= 1 && prev < LittleEndian.Pow256(width)
    ensures val < LittleEndian.Pow256(width) && |now| == |data| && DecodedTo(now, data, width, start + width, val)
  {
    hide *;
    var zigzag := Value(data[start..start + width]);
    val := Unfolded(zigzag, prev, width);
    now := out[..start] + LittleEndian.Encode(val, width) + out[start + width..];
    DecodeStep(out, now, data, width, start, prev);
  }

  method DecodeElements(data: Bytes, width: nat) returns (out: Bytes)
    requires width >= 1
    ensures out == Decoded(data, width, 0)
  {
    hide Offset, Count, Remainder, LittleEndian.Pow256, DecodedTo, LittleEndian.Zeros;
    OffsetEnds(|data|, width);
    var count := Count(|data|, width);
    if count == 0 {
      return data;
    }
    hide *;
    out := LittleEndian.Zeros(|data|);
    var prev: nat := 0;
    DecodedToStart(out, data, width);
    var i := 0;
    while i < count
      invariant 0 <= i <= count && |out| == |data| && prev < LittleEndian.Pow256(width)
      invariant DecodedTo(out, data, width, Offset(i, width), prev)
    {
      var start := Offset(i, width);
      OffsetStep(i, width, |data|);
      out, prev := DecodeElement(data, width, start, prev, out);
      i := i + 1;
    }
    var tail := Offset(count, width);
    DecodedToTail(out, data, width, tail, prev);
    if Remainder(|data|, width) > 0 {
      out := out[..tail] + data[tail..];
    } else {
      assert out[..tail] + data[tail..] == out;
    }
  }

  lemma DecodedToStart(out: Bytes, data: Bytes, width: nat)
    requires width >= 1 && |out| == |data|
    ensures DecodedTo(out, data, width, 0, 0)
  {
    assert out[..0] == [] && data[0..] == data;
  }

  method Encode(data: Bytes, dtype: DTypeId) returns (out: Bytes)
    ensures out == Apply(data, dtype)
  {
    match dtype
    case Int64 | UInt64 => out := EncodeElements(data, 8);
    case Int32 | UInt32 => out := EncodeElements(data, 4);
    case Int16 | UInt16 => out := EncodeElements(data, 2);
    case Int8 | UInt8 | Bool => out := EncodeElements(data, 1);
    case _ => out := data;
  }

  method Decode(data: Bytes, dtype: DTypeId) returns (out: Bytes)
    ensures out == Revert(data, dtype)
  {
    match dtype
    case Int64 | UInt64 => out := DecodeElements(data, 8);
    case Int32 | UInt32 => out := DecodeElements(data, 4);
    case Int16 | UInt16 => out := DecodeElements(data, 2);
    case Int8 | UInt8 | Bool => out := DecodeElements(data, 1);
    case _ => out := data;
  }
}

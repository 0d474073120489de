// Content-defined chunking with a 64-bit gear hash (crates/tpx-dedup/src/cdc.rs).

module Cdc {
  import opened Types

  const GEAR_SEED: u64 := 0x9E37_79B9_7F4A_7C15

  /** The generator behind the gear table, after `n` steps. */
  function GearState(n: nat): u64 {
    if n == 0 then GEAR_SEED
    else (GearState(n - 1) * 6364136223846793005 + 1442695040888963407) % 0x1_0000_0000_0000_0000
  }

  function Gear(b: u8): u64 {
    GearState(b as nat + 1)
  }

  datatype CdcConfig = CdcConfig(minSize: nat, maxSize: nat, targetAvg: nat, boundaryMask: u64)

  const DEFAULT_CONFIG := CdcConfig(32 * 1024, 512 * 1024, 128 * 1024, 0x0001_FFFF)

  datatype CdcSegment = CdcSegment(offset: nat, len: nat, contentHash: u128)

  /** Bitwise and. */
  function And(a: nat, b: nat): nat {
    if a == 0 || b == 0 then 0
    else (if a % 2 == 1 && b % 2 == 1 then 1 else 0) + 2 * And(a / 2, b / 2)
  }

  /** `(hash << 1).wrapping_add(gear[b])` on 64 bits. */
  function Roll(hash: u64, b: u8): u64 {
    ((2 * hash) % 0x1_0000_0000_0000_0000 + Gear(b)) % 0x1_0000_0000_0000_0000
  }

  /** Scans `i..end` and returns the position after the first boundary, or `end`. */
  function FindCut(data: Bytes, i: nat, end: nat, hash: u64, mask: u64): (cut: nat)
    requires end <= |data|
    ensures cut == end || i < cut < end
    decreases end - i
  {
    if i >= end then end
    else
      var h := Roll(hash, data[i]);
      if And(h, mask) == 0 then i + 1 else FindCut(data, i + 1, end, h, mask)
  }

  function Min(a: nat, b: nat): nat {
    if a < b then a else b
  }

  /** Where the segment that starts at `start` ends. */
  function CutPoint(data: Bytes, start: nat, config: CdcConfig): (cut: nat)
    requires start < |data| && config.maxSize > 0
    ensures start < cut <= |data|
  {
    var remaining := |data| - start;
    if remaining <= config.minSize then |data|
    else FindCut(data, start + config.minSize, start + Min(remaining, config.maxSize), 0, config.boundaryMask)
  }

  function SegmentAt(data: Bytes, start: nat, cut: nat, xxh3: Bytes -> u128): CdcSegment
    requires start <= cut <= |data|
  {
    CdcSegment(start, cut - start, xxh3(data[start..cut]))
  }

  function SegmentsFrom(data: Bytes, start: nat, config: CdcConfig, xxh3: Bytes -> u128): (segs: seq<CdcSegment>)
    requires start <= |data| && config.maxSize > 0
    ensures |segs| == 0 <==> start == |data|
    decreases |data| - start
  {
    if start == |data| then []
    else
      var cut := CutPoint(data, start, config);
      [SegmentAt(data, start, cut, xxh3)] + SegmentsFrom(data, cut, config, xxh3)
  }

  /** The inner loop: roll the hash over `scanStart..scanEnd` until it meets the mask. */
  method ScanBoundary(data: Bytes, scanStart: nat, scanEnd: nat, mask: u64) returns (cutPoint: nat)
    requires scanEnd <= |data|
    ensures cutPoint == FindCut(data, scanStart, scanEnd, 0, mask)
  {
    hide Roll, And;
    var hash: u64 := 0;
    cutPoint := scanEnd;
    var i := scanStart;
    while i < scanEnd
      invariant FindCut(data, i, scanEnd, hash, mask) == FindCut(data, scanStart, scanEnd, 0, mask)
    {
      hash := Roll(hash, data[i]);
      if And(hash, mask) == 0 {
        cutPoint := i + 1;
        break;
      }
      i := i + 1;
    }
  }

  /** The chunker's loop; `maxSize` 0 would never advance and is not a usable configuration. */
  method CdcChunk(data: Bytes, config: CdcConfig, xxh3: Bytes -> u128) returns (segments: seq<CdcSegment>)
    requires config.maxSize > 0
    ensures segments == SegmentsFrom(data, 0, config, xxh3)
  {
    hide FindCut;
    if data == [] {
      return [];
    }
    if |data| <= config.minSize {
      assert data[0..|data|] == data;
      return [CdcSegment(0, |data|, xxh3(data))];
    }
    segments := [];
    var chunkStart := 0;
    var n := |data|;
    while chunkStart < n
      invariant 0 <= chunkStart <= n
      invariant segments + SegmentsFrom(data, chunkStart, config, xxh3) == SegmentsFrom(data, 0, config, xxh3)
    {
      var remaining := n - chunkStart;
      if remaining <= config.minSize {
        segments := segments + [CdcSegment(chunkStart, remaining, xxh3(data[chunkStart..n]))];
        assert SegmentsFrom(data, n, config, xxh3) == [];
        break;
      }
      var maxChunkLen := Min(remaining, config.maxSize);
      var scanStart := chunkStart + config.minSize;
      var scanEnd := chunkStart + maxChunkLen;
      var cutPoint := ScanBoundary(data, scanStart, scanEnd, config.boundaryMask);
      assert cutPoint == CutPoint(data, chunkStart, config);
      segments := segments + [CdcSegment(chunkStart, cutPoint - chunkStart, xxh3(data[chunkStart..cutPoint]))];
      chunkStart := cutPoint;
    }
  }
}

module CdcProperties {
  import opened Types
  import opened Arithmetic
  import opened Cdc

  // ---------- tiling and size bounds ----------

  /** The bytes a segment covers. */
  function Slice(data: Bytes, s: CdcSegment): Bytes
    requires s.offset + s.len <= |data|
  {
    data[s.offset..s.offset + s.len]
  }

  ghost predicate Tiles(data: Bytes, start: nat, segs: seq<CdcSegment>, xxh3: Bytes -> u128)
    decreases |segs|
  {
    if |segs| == 0 then start == |data|
    else
      && segs[0].offset == start && segs[0].len > 0 && start + segs[0].len <= |data|
      && segs[0].contentHash == xxh3(Slice(data, segs[0]))
      && Tiles(data, start + segs[0].len, segs[1..], xxh3)
  }

  /** Segments cover the data end to end, without gap or overlap, each with the hash of its bytes. */
  lemma {:induction false} SegmentsTile(data: Bytes, start: nat, config: CdcConfig, xxh3: Bytes -> u128)
    requires start <= |data| && config.maxSize > 0
    ensures Tiles(data, start, SegmentsFrom(data, start, config, xxh3), xxh3)
    decreases |data| - start
  {
    if start < |data| {
      SegmentsTile(data, CutPoint(data, start, config), config, xxh3);
    }
  }

  /** No segment exceeds the maximum, and every segment but the last exceeds the minimum. */
  lemma {:induction false} SegmentSizes(data: Bytes, start: nat, config: CdcConfig, xxh3: Bytes -> u128, k: nat)
    requires start <= |data| && config.minSize < config.maxSize
    requires k < |SegmentsFrom(data, start, config, xxh3)|
    ensures var segs := SegmentsFrom(data, start, config, xxh3);
            segs[k].len <= config.maxSize && (k < |segs| - 1 ==> segs[k].len > config.minSize)
    decreases |data| - start
  {
    if k > 0 {
      SegmentSizes(data, CutPoint(data, start, config), config, xxh3, k - 1);
    }
  }

  /** Under the default configuration: above 32 KiB but for the last, and at most 512 KiB. */
  lemma DefaultSizes(data: Bytes, xxh3: Bytes -> u128, k: nat)
    requires k < |SegmentsFrom(data, 0, DEFAULT_CONFIG, xxh3)|
    ensures var segs := SegmentsFrom(data, 0, DEFAULT_CONFIG, xxh3);
            segs[k].len <= 524288 && (k < |segs| - 1 ==> segs[k].len > 32768)
  {
    SegmentSizes(data, 0, DEFAULT_CONFIG, xxh3, k);
  }

  // ---------- stability ----------

  lemma {:induction false} FindCutShift(a: Bytes, b: Bytes, i: nat, j: nat, n: nat, hash: u64, mask: u64)
    requires i + n <= |a| && j + n <= |b| && a[i..i + n] == b[j..j + n]
    ensures FindCut(a, i, i + n, hash, mask) - i == FindCut(b, j, j + n, hash, mask) - j
    decreases n
  {
    hide Roll, And;
    if n > 0 {
      assert a[i] == a[i..i + n][0] && b[j] == b[j..j + n][0];
      assert a[i + 1..i + n] == a[i..i + n][1..] && b[j + 1..j + n] == b[j..j + n][1..];
      FindCutShift(a, b, i + 1, j + 1, n - 1, Roll(hash, a[i]), mask);
    }
  }

  /** A scan that finds a boundary, or runs its full length, is not changed by a longer limit. */
  lemma {:induction false} FindCutLonger(a: Bytes, i: nat, end: nat, longer: nat, hash: u64, mask: u64)
    requires end <= longer <= |a|
    requires FindCut(a, i, end, hash, mask) < end
    ensures FindCut(a, i, longer, hash, mask) == FindCut(a, i, end, hash, mask)
    decreases end - i
  {
    hide Roll, And;
    if i < end && And(Roll(hash, a[i]), mask) != 0 {
      FindCutLonger(a, i + 1, end, longer, Roll(hash, a[i]), mask);
    }
  }

  function Shifted(s: CdcSegment, delta: int): CdcSegment
    requires s.offset + delta >= 0
  {
    s.(offset := s.offset + delta)
  }

  lemma CutPointShift(a: Bytes, b: Bytes, i: nat, j: nat, config: CdcConfig)
    requires i < |a| && j < |b| && a[i..] == b[j..] && config.maxSize > 0
    ensures CutPoint(a, i, config) - i == CutPoint(b, j, config) - j
  {
    hide FindCut;
    assert |a| - i == |a[i..]| == |b[j..]| == |b| - j;
    var remaining := |a| - i;
    var n := Min(remaining, config.maxSize);
    if remaining > config.minSize && config.minSize <= n {
      var lo, m := config.minSize, n - config.minSize;
      assert a[i + lo..i + lo + m] == a[i..][lo..lo + m];
      assert b[j + lo..j + lo + m] == b[j..][lo..lo + m];
      FindCutShift(a, b, i + lo, j + lo, m, 0, config.boundaryMask);
    }
  }

  /** The same segments, moved by `delta`. */
  ghost predicate SameTail(x: seq<CdcSegment>, y: seq<CdcSegment>, delta: int) {
    |x| == |y| && forall k :: 0 <= k < |x| ==> y[k].offset + delta >= 0 && x[k] == Shifted(y[k], delta)
  }

  /** Once two inputs cut at the start of a common suffix, they cut it the same way. */
  lemma {:induction false} SuffixStable(a: Bytes, b: Bytes, i: nat, j: nat, config: CdcConfig, xxh3: Bytes -> u128)
    requires i <= |a| && j <= |b| && a[i..] == b[j..] && config.maxSize > 0
    ensures SameTail(SegmentsFrom(a, i, config, xxh3), SegmentsFrom(b, j, config, xxh3), i - j)
    decreases |a| - i
  {
    assert |a| - i == |a[i..]| == |b[j..]| == |b| - j;
    if i < |a| {
      CutPointShift(a, b, i, j, config);
      var c, d := CutPoint(a, i, config), CutPoint(b, j, config);
      assert a[c..] == a[i..][c - i..] && b[d..] == b[j..][d - j..];
      assert a[i..c] == a[i..][..c - i] && b[j..d] == b[j..][..d - j];
      SuffixStable(a, b, c, d, config, xxh3);
      var (x, y) := (SegmentsFrom(a, c, config, xxh3), SegmentsFrom(b, d, config, xxh3));
      assert SegmentsFrom(a, i, config, xxh3) == [SegmentAt(a, i, c, xxh3)] + x;
      assert SegmentsFrom(b, j, config, xxh3) == [SegmentAt(b, j, d, xxh3)] + y;
    }
  }

  /** A segment that is not the last of its input keeps its end when bytes are appended. */
  lemma CutPointAppend(a: Bytes, more: Bytes, start: nat, config: CdcConfig)
    requires start < |a| && config.maxSize > 0
    requires CutPoint(a, start, config) < |a|
    ensures CutPoint(a + more, start, config) == CutPoint(a, start, config)
  {
    var b := a + more;
    var lo := start + config.minSize;
    var endA := start + Min(|a| - start, config.maxSize);
    var endB := start + Min(|b| - start, config.maxSize);
    assert endA <= endB;
    if lo <= endA {
      assert b[lo..endA] == a[lo..endA];
      FindCutShift(a, b, lo, lo, endA - lo, 0, config.boundaryMask);
      if FindCut(a, lo, endA, 0, config.boundaryMask) < endA {
        FindCutLonger(b, lo, endA, endB, 0, config.boundaryMask);
      }
    }
  }

  /** Appending bytes changes no segment but the last. */
  lemma {:induction false} PrefixStable(a: Bytes, more: Bytes, start: nat, config: CdcConfig, xxh3: Bytes -> u128)
    requires start < |a| && config.maxSize > 0
    ensures var (x, y) := (SegmentsFrom(a, start, config, xxh3), SegmentsFrom(a + more, start, config, xxh3));
            x[..|x| - 1] <= y
    decreases |a| - start
  {
    hide CutPoint;
    var cut := CutPoint(a, start, config);
    var x, y := SegmentsFrom(a, start, config, xxh3), SegmentsFrom(a + more, start, config, xxh3);
    if cut < |a| {
      CutPointAppend(a, more, start, config);
      PrefixStable(a, more, cut, config, xxh3);
      var x', y' := SegmentsFrom(a, cut, config, xxh3), SegmentsFrom(a + more, cut, config, xxh3);
      assert (a + more)[start..cut] == a[start..cut];
      var s := SegmentAt(a, start, cut, xxh3);
      assert x == [s] + x' && y == [s] + y';
      assert x[..|x| - 1] == [s] + x'[..|x'| - 1];
    } else {
      assert SegmentsFrom(a, cut, config, xxh3) == [];
      assert |x| == 1;
    }
  }

  // ---------- the rolling window ----------

  /** The gear hash after scanning `bytes` from a zero hash. */
  function HashOver(bytes: Bytes): u64 {
    if |bytes| == 0 then 0 else Roll(HashOver(bytes[..|bytes| - 1]), bytes[|bytes| - 1])
  }

  lemma {:induction false} Pow2Divides(m: nat)
    requires m <= 64
    ensures U64_LIMIT == Pow2(m) * Pow2(64 - m)
    decreases 64 - m
  {
    if m == 64 {
      Pow2Values();
    } else {
      Pow2Divides(m + 1);
      MulHalf(Pow2(m), Pow2(63 - m));
    }
  }

  lemma Pow2Values()
    ensures Pow2(17) == 0x2_0000 && Pow2(64) == U64_LIMIT
  {
    assert Pow2(8) == 256;
    assert Pow2(16) == 256 * Pow2(8);
    assert Pow2(17) == 2 * Pow2(16);
    assert Pow2(24) == 256 * Pow2(16);
    assert Pow2(32) == 256 * Pow2(24);
    assert Pow2(40) == 256 * Pow2(32);
    assert Pow2(48) == 256 * Pow2(40);
    assert Pow2(56) == 256 * Pow2(48);
    assert Pow2(64) == 256 * Pow2(56);
  }

  lemma ModOfMod(x: nat, p: nat, q: nat)
    requires p > 0 && q > 0
    ensures p * q > 0 && (x % (p * q)) % p == x % p
  {
    assert p * q > 0 by { MulAtLeast(p, q); }
    var k, r := x / (p * q), x % (p * q);
    var a, b := r / p, r % p;
    assert x == (p * q) * k + r;
    assert (p * q) * k == p * (q * k);
    assert x == p * (q * k + a) + b by {
      assert p * (q * k + a) == p * (q * k) + p * a;
    }
    DivModUnique(x, p, q * k + a, b);
  }

  lemma ModShift(k: int, y: nat, p: nat)
    requires p > 0 && p * k + y >= 0
    ensures (p * k + y) % p == y % p
  {
    var a, b := y / p, y % p;
    assert p * (k + a) == p * k + p * a;
    DivModUnique(p * k + y, p, k + a, b);
  }

  lemma DoubleMod(x: nat, y: nat, g: nat, p: nat)
    requires p > 0 && x % p == y % p
    ensures (2 * x + g) % (2 * p) == (2 * y + g) % (2 * p)
  {
    DoubleModForm(x, g, p);
    DoubleModForm(y, g, p);
  }

  lemma DoubleModForm(x: nat, g: nat, p: nat)
    requires p > 0
    ensures (2 * x + g) % (2 * p) == (2 * (x % p) + g) % (2 * p)
  {
    var k, r := x / p, x % p;
    assert x == p * k + r;
    MulHalf(p, k);
    assert 2 * (p * k) == p * (2 * k);
    ModShift(k, 2 * r + g, 2 * p);
  }

  /** Rolling one byte in makes one more low bit of the hash agree. */
  lemma RollAgrees(x: u64, y: u64, b: u8, m: nat)
    requires m < 64 && x % Pow2(m) == y % Pow2(m)
    ensures Roll(x, b) % Pow2(m + 1) == Roll(y, b) % Pow2(m + 1)
  {
    hide Roll, Gear;
    RollMod(x, b, m + 1);
    RollMod(y, b, m + 1);
    DoubleMod(x, y, Gear(b), Pow2(m));
  }

  /** The 64-bit wrap does not reach the low `m` bits. */
  lemma RollMod(x: u64, b: u8, m: nat)
    requires m <= 64
    ensures Roll(x, b) % Pow2(m) == (2 * x + Gear(b)) % Pow2(m)
  {
    hide Gear, Pow2;
    var exact := 2 * x + Gear(b);
    assert Roll(x, b) == exact % U64_LIMIT;
    Pow2Divides(m);
    ModOfMod(exact, Pow2(m), Pow2(64 - m));
  }

  function LastBytes(bytes: Bytes, m: nat): Bytes
    requires m <= |bytes|
  {
    bytes[|bytes| - m..]
  }

  lemma {:induction false} WindowMod(a: Bytes, b: Bytes, m: nat)
    requires m <= 64 && m <= |a| && m <= |b| && LastBytes(a, m) == LastBytes(b, m)
    ensures HashOver(a) % Pow2(m) == HashOver(b) % Pow2(m)
    decreases m
  {
    hide Roll;
    if m > 0 {
      var a', b' := a[..|a| - 1], b[..|b| - 1];
      assert LastBytes(a', m - 1) == LastBytes(a, m)[..m - 1];
      assert LastBytes(b', m - 1) == LastBytes(b, m)[..m - 1];
      assert a[|a| - 1] == LastBytes(a, m)[m - 1] && b[|b| - 1] == LastBytes(b, m)[m - 1];
      WindowMod(a', b', m - 1);
      RollAgrees(HashOver(a'), HashOver(b'), a[|a| - 1], m - 1);
    } else {
      assert Pow2(0) == 1;
    }
  }

  lemma {:induction false} AndMod(h: nat, mask: nat, m: nat)
    requires mask < Pow2(m)
    ensures And(h, mask) == And(h % Pow2(m), mask)
  {
    if m > 0 {
      var p := Pow2(m - 1);
      AndMod(h / 2, mask / 2, m - 1);
      HalfMod(h, p);
      var r := h % (2 * p);
      AndStep(h, mask);
      AndStep(r, mask);
    } else {
      assert mask == 0;
    }
  }

  lemma AndStep(a: nat, b: nat)
    ensures And(a, b) == (if a % 2 == 1 && b % 2 == 1 then 1 else 0) + 2 * And(a / 2, b / 2)
  {
  }

  /**
   * With a mask below 2^m, the boundary test after at least m scanned bytes looks at the last m
   * bytes only: two scans that agree there agree on whether to cut.
   */
  lemma WindowDecidesCut(a: Bytes, b: Bytes, m: nat, mask: u64)
    requires m <= 64 && m <= |a| && m <= |b| && mask < Pow2(m)
    requires LastBytes(a, m) == LastBytes(b, m)
    ensures And(HashOver(a), mask) == And(HashOver(b), mask)
  {
    WindowMod(a, b, m);
    AndMod(HashOver(a), mask, m);
    AndMod(HashOver(b), mask, m);
  }

  /** The boundary test at position `k` of a scan that began at `lo`. */
  ghost predicate Boundary(data: Bytes, lo: nat, k: nat, mask: u64)
    requires lo <= k <= |data|
  {
    And(HashOver(data[lo..k]), mask) == 0
  }

  /** The scan cuts at the first position whose hash over the scanned bytes meets the mask. */
  lemma {:induction false} FindCutIsFirst(data: Bytes, lo: nat, i: nat, end: nat, mask: u64)
    requires lo <= i <= end <= |data|
    ensures var cut := FindCut(data, i, end, HashOver(data[lo..i]), mask);
            && i <= cut <= end
            && (forall k :: i < k < cut ==> !Boundary(data, lo, k, mask))
            && (cut < end ==> Boundary(data, lo, cut, mask))
    decreases end - i
  {
    hide Roll, And;
    if i < end {
      assert data[lo..i + 1][..i - lo] == data[lo..i] && data[lo..i + 1][i - lo] == data[i];
      assert HashOver(data[lo..i + 1]) == Roll(HashOver(data[lo..i]), data[i]);
      if !Boundary(data, lo, i + 1, mask) {
        FindCutIsFirst(data, lo, i + 1, end, mask);
      }
    }
  }

  /** With a mask below 2^w, two scans that have read the same last w bytes either both cut there or neither does. */
  lemma SameWindow(a: Bytes, b: Bytes, loA: nat, loB: nat, i: nat, j: nat, w: nat, mask: u64)
    requires w <= 64 && mask < Pow2(w)
    requires loA + w <= i <= |a| && loB + w <= j <= |b| && a[i - w..i] == b[j - w..j]
    ensures Boundary(a, loA, i, mask) <==> Boundary(b, loB, j, mask)
  {
    assert LastBytes(a[loA..i], w) == a[i - w..i];
    assert LastBytes(b[loB..j], w) == b[j - w..j];
    WindowDecidesCut(a[loA..i], b[loB..j], w, mask);
  }

  /** Under the default configuration that window is 17 bytes. */
  lemma DefaultWindow(a: Bytes, b: Bytes, loA: nat, loB: nat, i: nat, j: nat)
    requires loA + 17 <= i <= |a| && loB + 17 <= j <= |b| && a[i - 17..i] == b[j - 17..j]
    ensures Boundary(a, loA, i, 0x0001_FFFF) <==> Boundary(b, loB, j, DEFAULT_CONFIG.boundaryMask)
  {
    Pow2Values();
    SameWindow(a, b, loA, loB, i, j, 17, DEFAULT_CONFIG.boundaryMask);
  }

  // ---------- where the segments end ----------

  /**
   * A segment ends where the content says: a longer one than the minimum has no boundary inside, and ends
   * at one unless it has the maximal size or is the last; no other segment is as short as the minimum.
   */
  ghost predicate CutRight(data: Bytes, s: CdcSegment, config: CdcConfig) {
    && s.offset + s.len <= |data|
    && var lo, end := s.offset + config.minSize, s.offset + s.len;
    && (lo < end ==>
          && (forall k :: lo < k < end ==> !Boundary(data, lo, k, config.boundaryMask))
          && (Boundary(data, lo, end, config.boundaryMask) || s.len == config.maxSize || end == |data|))
    && (end <= lo ==> s.len == config.maxSize || end == |data|)
  }

  /** Every segment of every input is cut by its content. */
  lemma {:induction false} SegmentsCutRight(data: Bytes, start: nat, config: CdcConfig, xxh3: Bytes -> u128, k: nat)
    requires start <= |data| && config.maxSize > 0
    requires k < |SegmentsFrom(data, start, config, xxh3)|
    ensures CutRight(data, SegmentsFrom(data, start, config, xxh3)[k], config)
    decreases |data| - start
  {
    hide FindCut, Boundary, HashOver;
    if k > 0 {
      SegmentsCutRight(data, CutPoint(data, start, config), config, xxh3, k - 1);
    } else {
      var cut := CutPoint(data, start, config);
      CutPointCutsRight(data, start, config, xxh3(data[start..cut]));
    }
  }

  lemma CutPointCutsRight(data: Bytes, start: nat, config: CdcConfig, hash: u128)
    requires start < |data| && config.maxSize > 0
    ensures CutRight(data, CdcSegment(start, CutPoint(data, start, config) - start, hash), config)
  {
    hide FindCut, Boundary, HashOver;
    var lo, end := start + config.minSize, start + Min(|data| - start, config.maxSize);
    if |data| - start > config.minSize && lo <= end {
      assert data[lo..lo] == [] && HashOver([]) == 0 by { NoHash(); }
      FindCutIsFirst(data, lo, lo, end, config.boundaryMask);
    }
  }

  lemma NoHash()
    ensures HashOver([]) == 0
  {
  }

  /** The segments are the only ones that tile the data within the size limits and are cut by the content. */
  lemma {:induction false} SegmentsAreUnique(data: Bytes, start: nat, segs: seq<CdcSegment>, config: CdcConfig, xxh3: Bytes -> u128)
    requires start <= |data| && config.minSize < config.maxSize && Tiles(data, start, segs, xxh3)
    requires forall s :: s in segs ==> CutRight(data, s, config) && s.len <= config.maxSize
    ensures segs == SegmentsFrom(data, start, config, xxh3)
    decreases |segs|
  {
    hide Boundary, CutRight, CutPoint, SegmentsFrom, Tiles;
    if segs == [] {
      TilesNone(data, start, xxh3);
      NothingLeft(data, start, config, xxh3);
    } else {
      var s := segs[0];
      assert s in segs && forall t :: t in segs[1..] ==> t in segs;
      TilesStep(data, start, segs, xxh3);
      CutPointIs(data, s, config);
      SegmentsAreUnique(data, start + s.len, segs[1..], config, xxh3);
      OneMore(data, start, s, segs[1..], config, xxh3);
      assert segs == [s] + segs[1..];
    }
  }

  lemma TilesNone(data: Bytes, start: nat, xxh3: Bytes -> u128)
    requires Tiles(data, start, [], xxh3)
    ensures start == |data|
  {
  }

  lemma TilesStep(data: Bytes, start: nat, segs: seq<CdcSegment>, xxh3: Bytes -> u128)
    requires segs != [] && Tiles(data, start, segs, xxh3)
    ensures segs[0].offset == start && 0 < segs[0].len && start + segs[0].len <= |data|
    ensures segs[0].contentHash == xxh3(data[start..start + segs[0].len])
    ensures Tiles(data, start + segs[0].len, segs[1..], xxh3)
  {
  }

  lemma NothingLeft(data: Bytes, start: nat, config: CdcConfig, xxh3: Bytes -> u128)
    requires start == |data| && config.maxSize > 0
    ensures SegmentsFrom(data, start, config, xxh3) == []
  {
  }

  lemma OneMore(data: Bytes, start: nat, s: CdcSegment, rest: seq<CdcSegment>, config: CdcConfig, xxh3: Bytes -> u128)
    requires s.offset == start < |data| && config.maxSize > 0 && start + s.len == CutPoint(data, start, config)
    requires start + s.len <= |data| && s.contentHash == xxh3(data[start..start + s.len])
    requires rest == SegmentsFrom(data, start + s.len, config, xxh3)
    ensures SegmentsFrom(data, start, config, xxh3) == [s] + rest
  {
    hide CutPoint;
  }

  lemma CutPointIs(data: Bytes, s: CdcSegment, config: CdcConfig)
    requires config.minSize < config.maxSize && 0 < s.len <= config.maxSize && CutRight(data, s, config)
    ensures s.offset < |data| && CutPoint(data, s.offset, config) == s.offset + s.len
  {
    hide FindCut, Boundary, HashOver;
    var lo, end := s.offset + config.minSize, s.offset + Min(|data| - s.offset, config.maxSize);
    if |data| - s.offset > config.minSize {
      assert data[lo..lo] == [] && HashOver([]) == 0 by { NoHash(); }
      FindCutIsFirst(data, lo, lo, end, config.boundaryMask);
    }
  }

  /** The segments behind the `k`-th. */
  function Behind(segs: seq<CdcSegment>, k: nat): seq<CdcSegment>
    requires k < |segs|
  {
    segs[k + 1..]
  }

  /** What follows a segment are the segments from its end on. */
  lemma {:induction false} TailFrom(data: Bytes, start: nat, config: CdcConfig, xxh3: Bytes -> u128, k: nat)
    requires start <= |data| && config.maxSize > 0
    requires k < |SegmentsFrom(data, start, config, xxh3)|
    ensures var segs := SegmentsFrom(data, start, config, xxh3);
            && segs[k].offset + segs[k].len <= |data|
            && Behind(segs, k) == SegmentsFrom(data, segs[k].offset + segs[k].len, config, xxh3)
    decreases |data| - start
  {
    hide CutPoint;
    var segs, cut := SegmentsFrom(data, start, config, xxh3), CutPoint(data, start, config);
    if k > 0 {
      TailFrom(data, cut, config, xxh3, k - 1);
      assert segs[k + 1..] == SegmentsFrom(data, cut, config, xxh3)[k..];
    }
  }

  /** Both segments end at the common boundary. */
  lemma Meet(a: Bytes, b: Bytes, config: CdcConfig, w: nat, s: CdcSegment, t: CdcSegment, i: nat, j: nat)
    requires CutRight(a, s, config) && CutRight(b, t, config) && config.boundaryMask < Pow2(w) && 1 <= w <= 64
    requires i == s.offset + s.len < |a| && config.minSize + w <= s.len && s.len != config.maxSize
    requires t.offset + config.minSize + w <= j <= t.offset + t.len && j <= |b|
    requires a[i - w..] == b[j - w..]
    ensures t.offset + t.len == j
  {
    hide Boundary, Pow2;
    BehindWindow(a, b, i, j, w);
    SameWindow(a, b, s.offset + config.minSize, t.offset + config.minSize, i, j, w, config.boundaryMask);
  }

  /**
   * Resynchronisation of the segments, for any mask below 2^w. Two inputs end alike, from w bytes before
   * `i` in the first and `j` in the second. In the first a segment ends at `i` because of its content, at
   * least w bytes into its scan. If in the second the segment around `j` has scanned w bytes by then, it
   * ends at `j`, and from there on both inputs have the same segments.
   */
  lemma Resynchronise(a: Bytes, b: Bytes, config: CdcConfig, w: nat, xxh3: Bytes -> u128,
                      x: seq<CdcSegment>, y: seq<CdcSegment>, m: nat, n: nat, i: nat, j: nat)
    requires config.maxSize > 0 && config.boundaryMask < Pow2(w) && 1 <= w <= 64
    requires x == SegmentsFrom(a, 0, config, xxh3) && y == SegmentsFrom(b, 0, config, xxh3) && m < |x| && n < |y|
    requires i == x[m].offset + x[m].len < |a| && config.minSize + w <= x[m].len && x[m].len != config.maxSize
    requires y[n].offset + config.minSize + w <= j <= y[n].offset + y[n].len && j <= |b|
    requires a[i - w..] == b[j - w..]
    ensures y[n].offset + y[n].len == j && SameTail(Behind(x, m), Behind(y, n), i - j)
  {
    hide SegmentsFrom, SameTail, Behind, Boundary, CutRight, Pow2;
    SegmentsCutRight(a, 0, config, xxh3, m);
    SegmentsCutRight(b, 0, config, xxh3, n);
    Meet(a, b, config, w, x[m], y[n], i, j);
    BehindWindow(a, b, i, j, w);
    TailsMeet(a, b, config, xxh3, x, y, m, n, i, j);
  }

  lemma TailsMeet(a: Bytes, b: Bytes, config: CdcConfig, xxh3: Bytes -> u128, x: seq<CdcSegment>, y: seq<CdcSegment>,
                  m: nat, n: nat, i: nat, j: nat)
    requires config.maxSize > 0 && x == SegmentsFrom(a, 0, config, xxh3) && y == SegmentsFrom(b, 0, config, xxh3)
    requires m < |x| && n < |y| && i == x[m].offset + x[m].len && j == y[n].offset + y[n].len
    requires i <= |a| && j <= |b| && a[i..] == b[j..]
    ensures SameTail(Behind(x, m), Behind(y, n), i - j)
  {
    hide SegmentsFrom, SameTail, Behind;
    TailFrom(a, 0, config, xxh3, m);
    TailFrom(b, 0, config, xxh3, n);
    SuffixStable(a, b, i, j, config, xxh3);
  }

  lemma BehindWindow(a: Bytes, b: Bytes, i: nat, j: nat, w: nat)
    requires w <= i <= |a| && w <= j <= |b| && a[i - w..] == b[j - w..]
    ensures a[i..] == b[j..] && a[i - w..i] == b[j - w..j]
  {
    assert a[i..] == a[i - w..][w..] && b[j..] == b[j - w..][w..];
    assert a[i - w..i] == a[i - w..][..w] && b[j - w..j] == b[j - w..][..w];
  }

  // ---------- the hash and the mask ----------

  /** Bit `k` of a number. */
  predicate BitAt(n: nat, k: nat) {
    (n / Pow2(k)) % 2 == 1
  }

  /** Masking gives zero exactly when no bit is set in both numbers. */
  lemma {:induction false} MaskedIsZero(a: nat, b: nat)
    ensures And(a, b) == 0 <==> forall k: nat :: !(BitAt(a, k) && BitAt(b, k))
    decreases a
  {
    AndStep(a, b);
    assert Pow2(0) == 1;
    assert BitAt(a, 0) == (a % 2 == 1) && BitAt(b, 0) == (b % 2 == 1);
    if a == 0 {
      forall k: nat ensures !BitAt(a, k) {
      }
    } else {
      MaskedIsZero(a / 2, b / 2);
      forall k: nat ensures BitAt(a, k + 1) == BitAt(a / 2, k) && BitAt(b, k + 1) == BitAt(b / 2, k) {
        HigherBit(a, k);
        HigherBit(b, k);
      }
      if And(a, b) != 0 && !(a % 2 == 1 && b % 2 == 1) {
        var k: nat :| BitAt(a / 2, k) && BitAt(b / 2, k);
        assert BitAt(a, k + 1) && BitAt(b, k + 1);
      }
      if And(a, b) == 0 {
        forall k: nat ensures !(BitAt(a, k) && BitAt(b, k)) {
          if k > 0 {
            assert !(BitAt(a / 2, k - 1) && BitAt(b / 2, k - 1));
            HigherBit(a, k - 1);
            HigherBit(b, k - 1);
          }
        }
      }
    }
  }

  lemma HigherBit(n: nat, k: nat)
    ensures BitAt(n, k + 1) == BitAt(n / 2, k)
  {
    HalfDiv(n, Pow2(k));
  }

  /** The gear table: the generator's first output, and each entry from the one before. */
  lemma GearTable(b: u8)
    ensures Gear(0) == 0x2CEA_EE21_BF46_BC00
    ensures b < 255 ==> Gear(b + 1) == (Gear(b) * 6364136223846793005 + 1442695040888963407) % U64_LIMIT
  {
    assert GearState(0) == 0x9E37_79B9_7F4A_7C15;
    assert GearState(1) == Gear(0);
  }
}

// Bit strings, most significant bit first, and their packing into bytes.

module Bits {
  import opened Types
  import opened Arithmetic

  /** The low `width` bits of `n`. */
  function ToBits(n: nat, width: nat): (s: seq<bool>)
    ensures |s| == width
  {
    if width == 0 then [] else ToBits(n / 2, width - 1) + [n % 2 == 1]
  }

  function FromBits(s: seq<bool>): nat {
    if s == [] then 0 else 2 * FromBits(s[..|s| - 1]) + if s[|s| - 1] then 1 else 0
  }

  function Falses(n: nat): (s: seq<bool>)
    ensures |s| == n
  {
    seq(n, _ => false)
  }

  lemma {:induction false} FromTo(n: nat, width: nat)
    requires n < Pow2(width)
    ensures FromBits(ToBits(n, width)) == n
  {
    if width > 0 {
      FromTo(n / 2, width - 1);
      assert ToBits(n, width)[..width - 1] == ToBits(n / 2, width - 1);
    }
  }

  lemma {:induction false} ToFrom(s: seq<bool>)
    ensures FromBits(s) < Pow2(|s|) && ToBits(FromBits(s), |s|) == s
  {
    if s != [] {
      ToFrom(s[..|s| - 1]);
    }
  }

  /** Bit `i` from the top stands for 2^(width - 1 - i). */
  lemma {:induction false} ToBitsAt(n: nat, width: nat, i: nat)
    requires i < width
    ensures ToBits(n, width)[i] <==> (n / Pow2(width - 1 - i)) % 2 == 1
  {
    if i < width - 1 {
      ToBitsAt(n / 2, width - 1, i);
      HalfDiv(n, Pow2(width - 2 - i));
    } else {
      assert Pow2(0) == 1;
    }
  }

  lemma {:induction false} LowBits(n: nat, width: nat, k: nat)
    requires k <= width
    ensures ToBits(n, width)[width - k..] == ToBits(n, k)
  {
    if k > 0 {
      LowBits(n / 2, width - 1, k - 1);
    }
  }

  lemma {:induction false} ZeroBits(width: nat)
    ensures ToBits(0, width) == Falses(width)
  {
    if width > 0 {
      ZeroBits(width - 1);
    }
  }

  lemma {:induction false} FromPadded(k: nat, s: seq<bool>)
    ensures FromBits(Falses(k) + s) == FromBits(s)
    decreases k + |s|
  {
    var t := Falses(k) + s;
    if s != [] {
      assert t[..|t| - 1] == Falses(k) + s[..|s| - 1];
      FromPadded(k, s[..|s| - 1]);
    } else if k > 0 {
      assert t[..|t| - 1] == Falses(k - 1) + s;
      FromPadded(k - 1, s);
    }
  }

  function ShiftedUp(n: nat, k: nat): nat {
    n * Pow2(k)
  }

  /** A left shift appends zeros. */
  lemma {:induction false} ShiftBits(n: nat, width: nat, k: nat)
    ensures ToBits(ShiftedUp(n, k), width + k) == ToBits(n, width) + Falses(k)
  {
    if k > 0 {
      ShiftBits(n, width, k - 1);
      assert ShiftedUp(n, k) == 2 * ShiftedUp(n, k - 1);
      assert Falses(k) == Falses(k - 1) + [false];
    } else {
      assert ShiftedUp(n, 0) == n;
    }
  }

  /** One more bit at the low end. */
  lemma PushLow(n: nat, width: nat, bit: bool)
    requires n < Pow2(width)
    ensures var m := 2 * n + if bit then 1 else 0;
            ToBits(m, width + 1) == ToBits(n, width) + [bit] && m < Pow2(width + 1)
  {
    var m := 2 * n + if bit then 1 else 0;
    assert m / 2 == n && (m % 2 == 1) == bit;
  }

  // ---------- bytes ----------

  function ByteBits(b: u8): (s: seq<bool>)
    ensures |s| == 8
  {
    ToBits(b as nat, 8)
  }

  lemma Pow2Of8()
    ensures Pow2(8) == 256 && Pow2(7) == 128 && Pow2(6) == 64
  {
    assert Pow2(1) == 2 && Pow2(2) == 4 && Pow2(3) == 8 && Pow2(4) == 16 && Pow2(5) == 32;
  }

  function ByteFrom(s: seq<bool>): (b: u8)
    requires |s| == 8
  {
    ToFrom(s);
    Pow2Of8();
    FromBits(s) as u8
  }

  lemma ByteBitsFrom(s: seq<bool>)
    requires |s| == 8
    ensures ByteBits(ByteFrom(s)) == s
  {
    ToFrom(s);
  }

  lemma ByteFromBits(b: u8)
    ensures ByteFrom(ByteBits(b)) == b
  {
    Pow2Of8();
    FromTo(b as nat, 8);
  }

  function BitsOf(bytes: Bytes): (s: seq<bool>)
    ensures |s| == 8 * |bytes|
  {
    if bytes == [] then [] else ByteBits(bytes[0]) + BitsOf(bytes[1..])
  }

  lemma {:induction false} BitsOfAppend(a: Bytes, b: Bytes)
    ensures BitsOf(a + b) == BitsOf(a) + BitsOf(b)
  {
    if a == [] {
      assert a + b == b;
    } else {
      BitsOfAppend(a[1..], b);
      assert (a + b)[1..] == a[1..] + b;
    }
  }

  lemma BitsOfOne(b: u8)
    ensures BitsOf([b]) == ByteBits(b)
  {
    assert [b][1..] == [];
  }

  /** Bit `i` of byte `k`. */
  lemma {:induction false} BitsOfAt(bytes: Bytes, k: nat, i: nat)
    requires k < |bytes| && i < 8
    ensures BitsOf(bytes)[8 * k + i] == ByteBits(bytes[k])[i]
  {
    if k > 0 {
      BitsOfAt(bytes[1..], k - 1, i);
    }
  }

  /** Eight bits to a byte, the last one filled up with zeros. */
  function PackBits(s: seq<bool>): Bytes
    decreases |s|
  {
    if |s| == 0 then []
    else if |s| < 8 then [ByteFrom(s + Falses(8 - |s|))]
    else [ByteFrom(s[..8])] + PackBits(s[8..])
  }

  /** Packing loses nothing: at most seven zeros are added, and the size is the bit count over eight, rounded up. */
  lemma {:induction false} PackHolds(s: seq<bool>)
    ensures |PackBits(s)| == (|s| + 7) / 8
    ensures BitsOf(PackBits(s)) == s + Falses(8 * ((|s| + 7) / 8) - |s|)
    decreases |s|
  {
    if |s| == 0 {
    } else if |s| < 8 {
      ByteBitsFrom(s + Falses(8 - |s|));
      BitsOfOne(PackBits(s)[0]);
    } else {
      PackHolds(s[8..]);
      ByteBitsFrom(s[..8]);
      assert PackBits(s)[1..] == PackBits(s[8..]);
      assert s == s[..8] + s[8..];
    }
  }

  /** Bytes are fixed by their bits. */
  lemma {:induction false} PackIs(bytes: Bytes, s: seq<bool>, pad: nat)
    requires BitsOf(bytes) == s + Falses(pad) && pad < 8
    ensures bytes == PackBits(s)
    decreases |s|
  {
    if bytes != [] {
      var t := s + Falses(pad);
      assert t[..8] == ByteBits(bytes[0]) && t[8..] == BitsOf(bytes[1..]);
      ByteFromBits(bytes[0]);
      if |s| < 8 {
        assert |bytes| == 1;
        assert t == s + Falses(8 - |s|);
        assert t[..8] == t;
      } else {
        assert t[..8] == s[..8] && t[8..] == s[8..] + Falses(pad);
        PackIs(bytes[1..], s[8..], pad);
      }
    }
  }

  /** The bits stand in the bytes in order, the first at the top of the first byte, and zeros fill the last byte. */
  ghost predicate Packed(s: seq<bool>, bytes: Bytes) {
    && |bytes| == (|s| + 7) / 8
    && forall p :: 0 <= p < 8 * |bytes| ==> (BitAt(bytes, p) <==> p < |s| && s[p])
  }

  /** Bit `p` counted from the top of the first byte. */
  predicate BitAt(bytes: Bytes, p: nat)
    requires p < 8 * |bytes|
  {
    (bytes[p / 8] as nat / Pow2(7 - p % 8)) % 2 == 1
  }

  lemma BitAtIs(bytes: Bytes, p: nat)
    requires p < 8 * |bytes|
    ensures BitsOf(bytes)[p] <==> BitAt(bytes, p)
  {
    hide ToBits, Pow2, BitsOf;
    BitsOfAt(bytes, p / 8, p % 8);
    ToBitsAt(bytes[p / 8] as nat, 8, p % 8);
  }

  lemma PackBitsPacks(s: seq<bool>)
    ensures Packed(s, PackBits(s))
  {
    hide PackBits, BitsOf, BitAt;
    var bytes := PackBits(s);
    PackHolds(s);
    forall p | 0 <= p < 8 * |bytes| ensures BitAt(bytes, p) <==> p < |s| && s[p] {
      BitAtIs(bytes, p);
    }
  }

  // ---------- reading ----------

  /** Past the end of the data every bit reads as zero. */
  predicate Bit(stream: seq<bool>, pos: nat) {
    pos < |stream| && stream[pos]
  }

  function ReadBits(stream: seq<bool>, pos: nat, n: nat): (s: seq<bool>)
    ensures |s| == n
  {
    seq(n, i requires 0 <= i => Bit(stream, pos + i))
  }

  lemma ReadFirst(stream: seq<bool>, pos: nat, n: nat)
    requires n > 0
    ensures ReadBits(stream, pos, n)[0] == Bit(stream, pos)
    ensures ReadBits(stream, pos, n)[1..] == ReadBits(stream, pos + 1, n - 1)
  {
    var s, t := ReadBits(stream, pos, n), ReadBits(stream, pos + 1, n - 1);
    forall i | 0 <= i < n - 1 ensures s[1..][i] == t[i] {
      assert s[i + 1] == Bit(stream, pos + (i + 1)) == Bit(stream, (pos + 1) + i);
    }
  }

  lemma ReadLast(stream: seq<bool>, pos: nat, n: nat)
    ensures ReadBits(stream, pos, n + 1) == ReadBits(stream, pos, n) + [Bit(stream, pos + n)]
  {
  }

  lemma ReadPast(stream: seq<bool>, pos: nat, n: nat)
    requires pos >= |stream|
    ensures ReadBits(stream, pos, n) == Falses(n)
  {
    forall i | 0 <= i < n ensures ReadBits(stream, pos, n)[i] == Falses(n)[i] {
      assert !Bit(stream, pos + i);
    }
  }

  /** `piece` stands in the stream at bit `pos`. */
  ghost predicate Holds(stream: seq<bool>, pos: nat, piece: seq<bool>) {
    pos + |piece| <= |stream| && stream[pos..pos + |piece|] == piece
  }

  lemma ReadHeld(stream: seq<bool>, pos: nat, piece: seq<bool>)
    requires Holds(stream, pos, piece)
    ensures ReadBits(stream, pos, |piece|) == piece
  {
    forall i | 0 <= i < |piece| ensures ReadBits(stream, pos, |piece|)[i] == piece[i] {
      var held := stream[pos..pos + |piece|];
      assert held[i] == stream[pos + i] == Bit(stream, pos + i);
    }
  }

  lemma HoldsSplit(stream: seq<bool>, pos: nat, a: seq<bool>, b: seq<bool>)
    requires Holds(stream, pos, a + b)
    ensures Holds(stream, pos, a) && Holds(stream, pos + |a|, b)
  {
    var s := stream[pos..pos + |a + b|];
    assert s[..|a|] == a && s[|a|..] == b;
    assert s[..|a|] == stream[pos..pos + |a|];
    assert s[|a|..] == stream[pos + |a|..pos + |a| + |b|];
  }
}

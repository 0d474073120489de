// Little-endian fields inside a byte buffer, and reading them back through a cursor position.

module LittleEndian {
  import opened Wrappers
  import opened Types
  import opened Arithmetic

  function Pow256(n: nat): (p: nat)
    ensures p >= 1
  {
    if n == 0 then 1 else 256 * Pow256(n - 1)
  }

  /** The low `width` bytes of `n`, least significant first: a truncating cast and a write. */
  function Encode(n: nat, width: nat): (bs: Bytes)
    ensures |bs| == width
  {
    if width == 0 then [] else [(n % 256) as u8] + Encode(n / 256, width - 1)
  }

  function Decode(bs: Bytes): nat {
    if |bs| == 0 then 0 else bs[0] as nat + 256 * Decode(bs[1..])
  }

  /** Writing truncates to the field width, and reading gives back exactly what was kept. */
  lemma {:induction false} DecodeEncode(n: nat, width: nat)
    ensures Decode(Encode(n, width)) == n % Pow256(width)
  {
    if width > 0 {
      DecodeEncode(n / 256, width - 1);
      assert Encode(n, width)[1..] == Encode(n / 256, width - 1);
      ModSplit(n, Pow256(width - 1));
    }
  }

  lemma ModSplit(n: nat, p: nat)
    requires p >= 1
    ensures n % (256 * p) == n % 256 + 256 * ((n / 256) % p)
  {
    var q, r := n / 256, n % 256;
    var a, b := q / p, q % p;
    assert q == a * p + b;
    assert n == (256 * p) * a + (r + 256 * b) by {
      assert 256 * (a * p) == (256 * p) * a;
    }
    DivModUnique(n, 256 * p, a, r + 256 * b);
  }

  lemma {:induction false} DecodeBound(bs: Bytes)
    ensures Decode(bs) < Pow256(|bs|)
  {
    if |bs| > 0 {
      DecodeBound(bs[1..]);
    }
  }

  /** A field that was read is written back as the same bytes. */
  lemma {:induction false} EncodeDecode(bs: Bytes)
    ensures Encode(Decode(bs), |bs|) == bs
  {
    if |bs| > 0 {
      EncodeDecode(bs[1..]);
      DivModUnique(Decode(bs), 256, Decode(bs[1..]), bs[0] as int);
    }
  }

  /** The `width` bytes at `pos` are the digits of `n` to the base 256, least significant first. */
  ghost predicate Digits(bs: Bytes, pos: nat, n: nat, width: nat) {
    pos + width <= |bs| && forall i :: 0 <= i < width ==> bs[pos + i] as nat == n / Pow256(i) % 256
  }

  lemma {:induction false} EncodeDigits(n: nat, width: nat)
    ensures Digits(Encode(n, width), 0, n, width)
  {
    if width > 0 {
      EncodeDigits(n / 256, width - 1);
      forall i | 0 <= i < width ensures Encode(n, width)[0 + i] as nat == n / Pow256(i) % 256 {
        if i > 0 {
          DivDiv(n, Pow256(i - 1));
          assert Encode(n, width)[i] == Encode(n / 256, width - 1)[0 + (i - 1)];
        }
      }
    }
  }

  lemma DivDiv(n: nat, p: nat)
    requires p > 0
    ensures (n / 256) / p == n / (256 * p)
  {
    var q, r := n / (256 * p), n % (256 * p);
    assert n == (256 * p) * q + r;
    assert (256 * p) * q == 256 * (p * q);
    assert n / 256 == p * q + r / 256;
    DivModUnique(n / 256, p, q, r / 256);
  }

  /** Where an encoded number stands, its digits do. */
  lemma DigitsAt(buf: Bytes, pos: nat, n: nat, width: nat)
    requires At(buf, pos, Encode(n, width))
    ensures Digits(buf, pos, n, width)
  {
    EncodeDigits(n, width);
    var s := buf[pos..pos + width];
    forall i | 0 <= i < width ensures buf[pos + i] as nat == n / Pow256(i) % 256 {
      assert s[0 + i] == buf[pos + i];
    }
  }

  /** What is read is the number whose digits stand there. */
  lemma ReadDigits(buf: Bytes, pos: nat, width: nat)
    ensures ReadUint(buf, pos, width).Success? <==> pos + width <= |buf|
    ensures ReadUint(buf, pos, width).Failure? ==> ReadUint(buf, pos, width).error == TpxError.Io
    ensures ReadUint(buf, pos, width).Success? ==> Digits(buf, pos, ReadUint(buf, pos, width).value, width)
  {
    if pos + width <= |buf| {
      EncodeDecode(buf[pos..pos + width]);
      DigitsAt(buf, pos, Decode(buf[pos..pos + width]), width);
    }
  }

  lemma Widths()
    ensures Pow256(1) == 0x100 && Pow256(2) == 0x1_0000 && Pow256(4) == U32_LIMIT && Pow256(8) == U64_LIMIT
  {
    assert Pow256(1) == 256 * Pow256(0);
    assert Pow256(2) == 256 * Pow256(1);
    assert Pow256(3) == 256 * Pow256(2);
    assert Pow256(4) == 256 * Pow256(3);
    assert Pow256(5) == 256 * Pow256(4);
    assert Pow256(6) == 256 * Pow256(5);
    assert Pow256(7) == 256 * Pow256(6);
    assert Pow256(8) == 256 * Pow256(7);
  }

  /** `piece` stands in `buf` at position `pos`. */
  ghost predicate At(buf: Bytes, pos: nat, piece: Bytes) {
    pos + |piece| <= |buf| && buf[pos..pos + |piece|] == piece
  }

  lemma AtBound(buf: Bytes, pos: nat, piece: Bytes)
    requires At(buf, pos, piece)
    ensures pos + |piece| <= |buf|
  {
  }

  lemma AtWhole(buf: Bytes)
    ensures At(buf, 0, buf)
  {
  }

  lemma AtSplit(buf: Bytes, pos: nat, a: Bytes, b: Bytes)
    ensures At(buf, pos, a + b) <==> At(buf, pos, a) && At(buf, pos + |a|, b)
  {
    if At(buf, pos, a + b) {
      var s := buf[pos..pos + |a + b|];
      assert s[..|a|] == a && s[|a|..] == b;
      assert s[..|a|] == buf[pos..pos + |a|];
      assert s[|a|..] == buf[pos + |a|..pos + |a| + |b|];
    }
    if At(buf, pos, a) && At(buf, pos + |a|, b) {
      assert buf[pos..pos + |a + b|] == buf[pos..pos + |a|] + buf[pos + |a|..pos + |a| + |b|];
    }
  }

  /** The next `n` bytes at a cursor, or an unexpected-end error. */
  function Take(buf: Bytes, pos: nat, n: nat): Result<Bytes, TpxError> {
    if pos + n <= |buf| then Success(buf[pos..pos + n]) else Failure(TpxError.Io)
  }

  lemma TakeAt(buf: Bytes, pos: nat, piece: Bytes)
    requires At(buf, pos, piece)
    ensures Take(buf, pos, |piece|) == Success(piece)
  {
  }

  function ReadUint(buf: Bytes, pos: nat, width: nat): (r: Result<nat, TpxError>)
    ensures r.Success? ==> pos + width <= |buf| && r.value < Pow256(width)
  {
    var bs :- Take(buf, pos, width);
    DecodeBound(bs);
    Success(Decode(bs))
  }

  lemma ReadBack(buf: Bytes, pos: nat, n: nat, width: nat)
    requires At(buf, pos, Encode(n, width))
    ensures ReadUint(buf, pos, width) == Success(n % Pow256(width))
    ensures n < Pow256(width) ==> ReadUint(buf, pos, width) == Success(n)
  {
    DecodeEncode(n, width);
    if n < Pow256(width) {
      DivModUnique(n, Pow256(width), 0, n);
    }
  }

  function ReadU8(buf: Bytes, pos: nat): (r: Result<u8, TpxError>) {
    var n :- ReadUint(buf, pos, 1);
    Widths();
    Success(n as u8)
  }

  function ReadU16(buf: Bytes, pos: nat): (r: Result<u16, TpxError>) {
    var n :- ReadUint(buf, pos, 2);
    Widths();
    Success(n)
  }

  function ReadU32(buf: Bytes, pos: nat): (r: Result<u32, TpxError>) {
    var n :- ReadUint(buf, pos, 4);
    Widths();
    Success(n)
  }

  function ReadU64(buf: Bytes, pos: nat): (r: Result<u64, TpxError>) {
    var n :- ReadUint(buf, pos, 8);
    Widths();
    Success(n)
  }

  /** The four field widths read back what was written, truncated to the width. */
  lemma ReadBackAll(buf: Bytes, pos: nat, n: nat)
    ensures At(buf, pos, Encode(n, 1)) ==> ReadU8(buf, pos) == Success((n % 0x100) as u8)
    ensures At(buf, pos, Encode(n, 2)) ==> ReadU16(buf, pos) == Success(n % 0x1_0000)
    ensures At(buf, pos, Encode(n, 4)) ==> ReadU32(buf, pos) == Success(n % U32_LIMIT)
    ensures At(buf, pos, Encode(n, 8)) ==> ReadU64(buf, pos) == Success(n % U64_LIMIT)
  {
    Widths();
    if At(buf, pos, Encode(n, 1)) { ReadBack(buf, pos, n, 1); }
    if At(buf, pos, Encode(n, 2)) { ReadBack(buf, pos, n, 2); }
    if At(buf, pos, Encode(n, 4)) { ReadBack(buf, pos, n, 4); }
    if At(buf, pos, Encode(n, 8)) { ReadBack(buf, pos, n, 8); }
  }

  /** One field of a record: it reads back, and the rest of the record follows it. */
  lemma Field(buf: Bytes, pos: nat, n: nat, width: nat, rest: Bytes)
    requires At(buf, pos, Encode(n, width) + rest)
    ensures At(buf, pos + width, rest)
    ensures width == 1 ==> ReadU8(buf, pos) == Success((n % 0x100) as u8)
    ensures width == 2 ==> ReadU16(buf, pos) == Success(n % 0x1_0000)
    ensures width == 4 ==> ReadU32(buf, pos) == Success(n % U32_LIMIT)
    ensures width == 8 ==> ReadU64(buf, pos) == Success(n % U64_LIMIT)
  {
    hide At, Encode;
    AtSplit(buf, pos, Encode(n, width), rest);
    ReadBackAll(buf, pos, n);
  }

  /** A run of u32 fields, in order. */
  function EncodeU32s(xs: seq<u32>): (bs: Bytes)
    ensures |bs| == 4 * |xs|
  {
    if |xs| == 0 then [] else EncodeU32s(xs[..|xs| - 1]) + Encode(xs[|xs| - 1], 4)
  }

  function ReadU32s(buf: Bytes, pos: nat, n: nat): (r: Result<seq<u32>, TpxError>)
    ensures r.Success? ==> |r.value| == n
  {
    if n == 0 then Success([])
    else
      var xs :- ReadU32s(buf, pos, n - 1);
      var x :- ReadU32(buf, pos + 4 * (n - 1));
      Success(xs + [x])
  }

  lemma {:induction false} ReadBackU32s(buf: Bytes, pos: nat, xs: seq<u32>)
    requires At(buf, pos, EncodeU32s(xs))
    ensures ReadU32s(buf, pos, |xs|) == Success(xs)
  {
    hide Encode, ReadU32;
    if |xs| > 0 {
      var init, last := xs[..|xs| - 1], xs[|xs| - 1];
      AtSplit(buf, pos, EncodeU32s(init), Encode(last, 4));
      ReadBackU32s(buf, pos, init);
      ReadBackAll(buf, pos + 4 * |init|, last);
      assert init + [last] == xs;
    }
  }

  function Zeros(n: nat): (bs: Bytes)
    ensures |bs| == n
  {
    seq(n, _ => 0)
  }
}

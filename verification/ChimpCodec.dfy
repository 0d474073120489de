// The byte-level Chimp128 codec: floats in, floats out (crates/tpx-codec/src/lib.rs:50-103).

module ChimpCodec {
  import opened Wrappers
  import opened Types
  import opened Bits
  import opened Chimp
  import opened ChimpCoder
  import opened ChimpFormat
  import opened Arithmetic

  function Reversed(bs: Bytes): (r: Bytes)
    ensures |r| == |bs|
  {
    if bs == [] then [] else Reversed(bs[1..]) + [bs[0]]
  }

  /** `from_le_bytes`: the bits of the value, most significant byte first. */
  function FloatBits(bs: Bytes): (s: seq<bool>)
    ensures |s| == 8 * |bs|
  {
    BitsOf(Reversed(bs))
  }

  /** `to_le_bytes`. */
  function FloatBytes(s: seq<bool>): Bytes {
    Reversed(PackBits(s))
  }

  /** Anything but Float64 is treated as 32-bit floats. */
  function FloatSize(dtype: DTypeId): nat {
    if dtype == Float64 then 8 else 4
  }

  /** The whole elements of `data` as words, 32-bit ones in the upper half. */
  function WordsOf(data: Bytes, size: nat): (ws: seq<Word>)
    requires size == 4 || size == 8
    ensures |ws| == |data| / size
    decreases |data|
  {
    if |data| < size then [] else [FloatBits(data[..size]) + Falses(64 - 8 * size)] + WordsOf(data[size..], size)
  }

  function BytesOf(ws: seq<Word>, size: nat): Bytes
    requires size == 4 || size == 8
  {
    if ws == [] then [] else FloatBytes(ws[0][..8 * size]) + BytesOf(ws[1..], size)
  }

  function Compressed(data: Bytes, dtype: DTypeId): Bytes {
    Finished(WordsOf(data, FloatSize(dtype)))
  }

  function Decompressed(data: Bytes, len: nat, dtype: DTypeId): Result<Bytes, TpxError> {
    var ws :- Decoded(data);
    var bytes := BytesOf(ws, FloatSize(dtype));
    if |bytes| != len then Failure(DecompressLengthMismatch(len, |bytes|)) else Success(bytes)
  }

  // ---------- round trip ----------

  lemma {:induction false} ReversedAppend(a: Bytes, b: Bytes)
    ensures Reversed(a + b) == Reversed(b) + Reversed(a)
  {
    if a == [] {
      assert a + b == b;
    } else {
      ReversedAppend(a[1..], b);
      assert (a + b)[1..] == a[1..] + b;
    }
  }

  lemma {:induction false} ReversedTwice(bs: Bytes)
    ensures Reversed(Reversed(bs)) == bs
  {
    if bs != [] {
      ReversedAppend(Reversed(bs[1..]), [bs[0]]);
      ReversedTwice(bs[1..]);
    }
  }

  /** The bits of a float's bytes give the bytes back. */
  lemma FloatBack(bs: Bytes)
    ensures FloatBytes(FloatBits(bs)) == bs
  {
    var s := BitsOf(Reversed(bs));
    assert s + Falses(0) == s;
    PackIs(Reversed(bs), s, 0);
    ReversedTwice(bs);
  }

  function Span(n: nat, size: nat): nat {
    n * size
  }

  lemma SpanStep(n: nat, size: nat, len: nat)
    requires (size == 4 || size == 8) && n <= len / size
    ensures Span(n, size) <= len
    ensures n > 0 ==> len >= size && n - 1 <= (len - size) / size && Span(n, size) == size + Span(n - 1, size)
    ensures n == 0 ==> Span(n, size) == 0
  {
  }

  lemma SliceHead(data: Bytes, size: nat, k: nat)
    requires size <= k <= |data|
    ensures data[..k] == data[..size] + data[size..][..k - size]
  {
  }

  lemma OneBack(data: Bytes, size: nat)
    requires (size == 4 || size == 8) && |data| >= size
    ensures var ws := WordsOf(data, size);
            ws != [] && ws[1..] == WordsOf(data[size..], size) && FloatBytes(ws[0][..8 * size]) == data[..size]
  {
    hide FloatBits, FloatBytes;
    FloatBack(data[..size]);
    assert (FloatBits(data[..size]) + Falses(64 - 8 * size))[..8 * size] == FloatBits(data[..size]);
  }

  /** The first `n` elements come back as the first `n * size` bytes. */
  lemma {:induction false} WordsBack(data: Bytes, size: nat, n: nat)
    requires (size == 4 || size == 8) && n <= |data| / size
    ensures Span(n, size) <= |data| && BytesOf(WordsOf(data, size)[..n], size) == data[..Span(n, size)]
    decreases n
  {
    hide FloatBits, FloatBytes, Span, WordsOf;
    SpanStep(n, size, |data|);
    if n > 0 {
      var ws := WordsOf(data, size);
      OneBack(data, size);
      WordsBack(data[size..], size, n - 1);
      assert ws[..n][1..] == ws[1..][..n - 1];
      SliceHead(data, size, Span(n, size));
    } else {
      assert WordsOf(data, size)[..0] == [];
    }
  }

  /**
   * Decompressing gives the whole elements back when their length is the one asked for, and otherwise
   * reports the two lengths. The element count is the 32-bit one of the header.
   */
  lemma CodecRoundTrip(data: Bytes, len: nat, dtype: DTypeId)
    ensures var size := if dtype == Float64 then 8 else 4;
            var whole := (|data| / size) % U32_LIMIT * size;
            whole <= |data|
            && Decompressed(Compressed(data, dtype), len, dtype)
               == if len == whole then Success(data[..whole]) else Failure(DecompressLengthMismatch(len, whole))
  {
    hide Decoded, Finished, WordsOf, BytesOf;
    var size := FloatSize(dtype);
    var ws := WordsOf(data, size);
    var n := |ws| % U32_LIMIT;
    RoundTrip(ws);
    WordsBack(data, size, n);
    assert Span(n, size) == n * size;
  }

  /** The original length: the input comes back exactly when it is a multiple of the element size. */
  lemma CodecExact(data: Bytes, dtype: DTypeId)
    requires |data| / (if dtype == Float64 then 8 else 4) < U32_LIMIT
    ensures Decompressed(Compressed(data, dtype), |data|, dtype) == Success(data)
            <==> |data| % (if dtype == Float64 then 8 else 4) == 0
    ensures Decompressed(Compressed(data, dtype), |data|, dtype).Failure?
            <==> |data| % (if dtype == Float64 then 8 else 4) != 0
  {
    hide Decompressed, Compressed;
    CodecRoundTrip(data, |data|, dtype);
    var size := FloatSize(dtype);
    assert |data| == size * (|data| / size) + |data| % size;
    assert data[..|data|] == data;
  }

  // ---------- the loops ----------

  /** The words of the elements before `i`. */
  ghost predicate EncodedTo(values: seq<Word>, data: Bytes, i: nat, size: nat)
    requires size == 4 || size == 8
  {
    i <= |data| / size && values == WordsOf(data, size)[..i]
  }

  lemma EncodedEnds(values: seq<Word>, data: Bytes, size: nat)
    requires size == 4 || size == 8
    ensures EncodedTo([], data, 0, size)
    ensures EncodedTo(values, data, |data| / size, size) ==> values == WordsOf(data, size)
  {
    hide FloatBits;
    var ws := WordsOf(data, size);
    assert ws[..0] == [] && ws[..|ws|] == ws;
  }

  /** Word `i` comes from the bytes of element `i`. */
  lemma {:induction false} WordAt(data: Bytes, size: nat, i: nat)
    requires (size == 4 || size == 8) && i < |data| / size
    ensures size * i + size <= |data|
    ensures WordsOf(data, size)[i] == FloatBits(data[size * i..size * i + size]) + Falses(64 - 8 * size)
    decreases i
  {
    hide FloatBits, Falses;
    if i > 0 {
      WordAt(data[size..], size, i - 1);
      SliceBehind(data, size, size * (i - 1));
    }
  }

  lemma SliceBehind(data: Bytes, size: nat, k: nat)
    requires size + k + size <= |data|
    ensures data[size..][k..k + size] == data[size + k..size + k + size]
  {
  }

  lemma EncodedMore(values: seq<Word>, data: Bytes, i: nat, size: nat)
    requires (size == 4 || size == 8) && i < |data| / size && EncodedTo(values, data, i, size)
    ensures size * i + size <= |data|
    ensures EncodedTo(values + [FloatBits(data[size * i..size * i + size]) + Falses(64 - 8 * size)], data, i + 1, size)
  {
    hide FloatBits, WordsOf;
    WordAt(data, size, i);
  }

  lemma NoPadding(word: Word)
    ensures word + Falses(0) == word
  {
  }

  // ---------- which words are written ----------

  /** The word of the float of `size` bytes at `start`, the least significant byte first: its bits, and zeros below a 32-bit one. */
  ghost predicate FloatAt(data: Bytes, start: nat, size: nat, w: Word)
    requires start + size <= |data|
  {
    forall p :: 0 <= p < 64 ==>
      (w[p] <==> p < 8 * size && (data[start + size - 1 - p / 8] as nat / Pow2(7 - p % 8)) % 2 == 1)
  }

  /** One word for each whole float. */
  ghost predicate Floats(data: Bytes, size: nat, ws: seq<Word>)
    requires size > 0
  {
    && |ws| == |data| / size
    && forall j :: 0 <= j < |ws| ==> size * j + size <= |data| && FloatAt(data, size * j, size, ws[j])
  }

  ghost predicate FloatStream(data: Bytes, size: nat, out: Bytes)
    requires size > 0
  {
    exists ws :: Floats(data, size, ws) && Stream(ws, out)
  }

  lemma {:induction false} ReversedAt(bs: Bytes, k: nat)
    requires k < |bs|
    ensures Reversed(bs)[k] == bs[|bs| - 1 - k]
  {
    if k < |bs| - 1 {
      ReversedAt(bs[1..], k);
    }
  }

  lemma FloatBitsAt(data: Bytes, start: nat, size: nat)
    requires (size == 4 || size == 8) && start + size <= |data|
    ensures FloatAt(data, start, size, FloatBits(data[start..start + size]) + Falses(64 - 8 * size))
  {
    hide Pow2, Reversed, BitsOf;
    var bs := data[start..start + size];
    var w := FloatBits(bs) + Falses(64 - 8 * size);
    forall p | 0 <= p < 8 * size
      ensures w[p] <==> (data[start + size - 1 - p / 8] as nat / Pow2(7 - p % 8)) % 2 == 1
    {
      BitAtIs(Reversed(bs), p);
      ReversedAt(bs, p / 8);
    }
  }

  /** Compressing writes the stream of the whole floats: eight bytes each for Float64, four for every other type. */
  lemma CompressedIs(data: Bytes, dtype: DTypeId)
    ensures FloatStream(data, if dtype == Float64 then 8 else 4, Compressed(data, dtype))
  {
    hide WordsOf, FloatBits, FloatAt, Finished, Stream;
    var size := if dtype == Float64 then 8 else 4;
    var ws := WordsOf(data, size);
    forall j | 0 <= j < |ws| ensures size * j + size <= |data| && FloatAt(data, size * j, size, ws[j]) {
      WordAt(data, size, j);
      FloatBitsAt(data, size * j, size);
    }
    FinishedStream(ws);
  }

  // ---------- compressing and decompressing ----------

  method Encode64(encoder: Encoder, data: Bytes)
    requires encoder.Valid() && encoder.values == []
    modifies encoder, encoder.history
    ensures encoder.Valid() && encoder.values == WordsOf(data, 8)
  {
    hide EncodedTo, FloatBits, Encoder.Valid, WordsOf;
    var count := |data| / 8;
    EncodedEnds(encoder.values, data, 8);
    var i := 0;
    while i < count
      invariant 0 <= i <= count && encoder.Valid()
      invariant EncodedTo(encoder.values, data, i, 8)
    {
      var start := i * 8;
      EncodedMore(encoder.values, data, i, 8);
      var word := FloatBits(data[start..start + 8]);
      NoPadding(word);
      encoder.EncodeF64(word);
      i := i + 1;
    }
    EncodedEnds(encoder.values, data, 8);
  }

  method Encode32(encoder: Encoder, data: Bytes)
    requires encoder.Valid() && encoder.values == []
    modifies encoder, encoder.history
    ensures encoder.Valid() && encoder.values == WordsOf(data, 4)
  {
    hide EncodedTo, FloatBits, Encoder.Valid, WordsOf;
    var count := |data| / 4;
    EncodedEnds(encoder.values, data, 4);
    var i := 0;
    while i < count
      invariant 0 <= i <= count && encoder.Valid()
      invariant EncodedTo(encoder.values, data, i, 4)
    {
      var start := i * 4;
      EncodedMore(encoder.values, data, i, 4);
      encoder.EncodeF32(FloatBits(data[start..start + 4]));
      i := i + 1;
    }
    EncodedEnds(encoder.values, data, 4);
  }

  method Compress(data: Bytes, dtype: DTypeId) returns (packed: Bytes)
    ensures packed == Compressed(data, dtype)
  {
    var encoder := new Encoder();
    if dtype == Float64 {
      Encode64(encoder, data);
    } else {
      Encode32(encoder, data);
    }
    packed := encoder.Finish();
  }

  /** The next decoded value as bytes. */
  method NextFloat(decoder: Decoder, dtype: DTypeId) returns (piece: Option<Bytes>)
    requires decoder.Valid()
    modifies decoder, decoder.history
    ensures decoder.Valid()
    ensures piece.None? ==> old(decoder.Rest()) == [] && decoder.Rest() == []
    ensures piece.Some? ==>
              |decoder.Rest()| < |old(decoder.Rest())|
              && BytesOf(old(decoder.Rest()), FloatSize(dtype)) == piece.value + BytesOf(decoder.Rest(), FloatSize(dtype))
  {
    hide FloatBytes, Decoder.Rest, Decoder.Valid;
    if dtype == Float64 {
      var v := decoder.DecodeF64();
      if v.None? {
        return None;
      }
      assert v.value[..64] == v.value;
      return Some(FloatBytes(v.value));
    }
    var v := decoder.DecodeF32();
    return if v.Some? then Some(FloatBytes(v.value)) else None;
  }

  method Decompress(data: Bytes, len: nat, dtype: DTypeId) returns (r: Result<Bytes, TpxError>)
    ensures r == Decompressed(data, len, dtype)
  {
    hide BytesOf, Decoded, Decoder.Rest, Decoder.Valid;
    var opening := OpenDecoder(data);
    if opening.Failure? {
      return Failure(opening.error);
    }
    var decoder := opening.value;
    ghost var size, all := FloatSize(dtype), decoder.Rest();
    var out: Bytes := [];
    var piece := NextFloat(decoder, dtype);
    while piece.Some?
      invariant fresh(decoder) && fresh(decoder.history) && decoder.Valid()
      invariant out + (if piece.Some? then piece.value else []) + BytesOf(decoder.Rest(), size) == BytesOf(all, size)
      invariant piece.None? ==> decoder.Rest() == []
      decreases |decoder.Rest()|, piece.Some?
    {
      out := out + piece.value;
      ghost var before := decoder.Rest();
      piece := NextFloat(decoder, dtype);
      assert out + BytesOf(before, size) == BytesOf(all, size);
    }
    NoBytes(size);
    assert out == BytesOf(all, size);
    if |out| != len {
      return Failure(DecompressLengthMismatch(len, |out|));
    }
    return Success(out);
  }

  lemma NoBytes(size: nat)
    requires size == 4 || size == 8
    ensures BytesOf([], size) == []
  {
  }
}

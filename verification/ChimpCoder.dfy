// The encoder and decoder objects, bit by bit and byte by byte, against the format's state machines
// (crates/tpx-codec/src/chimp128.rs).

module ChimpCoder {
  import opened Wrappers
  import opened Types
  import opened Arithmetic
  import opened Bits
  import opened Chimp
  import opened ChimpFormat
  import LittleEndian

  /** One more value behind the ones already written. */
  lemma {:induction false} EncodeMore(st: State, count: u32, vs: seq<Word>, v: Word)
    requires StateOk(st)
    ensures var e := EncodeAll(st, count, vs);
            var more := EncodeOne(e.0, (count + |vs|) % U32_LIMIT == 0, v);
            EncodeAll(st, count, vs + [v]) == (more.0, e.1 + more.1)
    decreases |vs|
  {
    hide EncodeOne, StateOk, Wrap32;
    if vs == [] {
      assert vs + [v] == [v];
      EncodeSingle(st, count, v);
      var more := EncodeOne(st, count == 0, v);
      assert (count + |vs|) % U32_LIMIT == count;
      assert [] + more.1 == more.1;
    } else {
      var e := EncodeOne(st, count == 0, vs[0]);
      assert (vs + [v])[1..] == vs[1..] + [v];
      EncodeMore(e.0, Wrap32(count + 1), vs[1..], v);
      WrapStep(count, |vs|);
      var rest := EncodeAll(e.0, Wrap32(count + 1), vs[1..]);
      var more := EncodeOne(rest.0, (count + |vs|) % U32_LIMIT == 0, v);
      assert e.1 + (rest.1 + more.1) == (e.1 + rest.1) + more.1;
    }
  }

  lemma WrapStep(count: u32, n: nat)
    requires n >= 1
    ensures (Wrap32(count + 1) + (n - 1)) % U32_LIMIT == (count + n) % U32_LIMIT
  {
  }

  lemma CountStep(n: nat)
    ensures Wrap32(n % U32_LIMIT + 1) == (n + 1) % U32_LIMIT
  {
  }

  lemma EncodeSingle(st: State, count: u32, v: Word)
    requires StateOk(st)
    ensures EncodeAll(st, count, [v]) == EncodeOne(st, count == 0, v)
  {
    hide EncodeOne;
    var e := EncodeOne(st, count == 0, v);
    assert [v][1..] == [];
    assert e.1 + [] == e.1;
  }

  class Encoder {
    const history: array<Word>
    var historyIdx: nat
    var prevVal: Word
    var prevLeading: nat
    var prevTrailing: nat
    var bitsBuffer: nat
    var bitsCount: nat
    var output: Bytes
    var count: u32
    ghost var values: seq<Word>

    ghost function St(): State
      reads this`historyIdx, this`prevVal, this`prevLeading, this`prevTrailing, history
    {
      State(history[..], historyIdx, prevVal, prevLeading, prevTrailing)
    }

    /** Everything written so far, the unfinished byte included. */
    ghost function Written(): seq<bool>
      reads this`output, this`bitsBuffer, this`bitsCount
    {
      BitsOf(output) + ToBits(bitsBuffer, bitsCount)
    }

    ghost predicate Ok()
      reads this
    {
      history.Length == 128 && prevLeading <= UNSET && prevTrailing <= UNSET
      && bitsCount < 8 && bitsBuffer < Pow2(bitsCount)
    }

    /** The state and the bits are those of the format for the values encoded so far. */
    ghost predicate Valid()
      reads this, history
    {
      Ok() && count == |values| % U32_LIMIT && (St(), Written()) == EncodeAll(Start(), 0, values)
    }

    constructor ()
      ensures Valid() && values == [] && fresh(history)
    {
      history := new Word[128](_ => Falses(64));
      historyIdx, prevVal, prevLeading, prevTrailing := 0, Falses(64), UNSET, UNSET;
      bitsBuffer, bitsCount, output, count, values := 0, 0, [], 0, [];
      new;
      assert history[..] == seq(128, _ => Falses(64));
      assert St() == Start() && Written() == [];
    }

    method PushBit(bit: bool)
      requires Ok()
      modifies this`bitsBuffer, this`bitsCount, this`output
      ensures Ok() && Written() == old(Written()) + [bit]
    {
      hide ToBits, BitsOf, Pow2;
      PushLow(bitsBuffer, bitsCount, bit);
      Pow2Of8();
      ghost var before := ToBits(bitsBuffer, bitsCount);
      bitsBuffer := 2 * bitsBuffer + if bit then 1 else 0;
      bitsCount := bitsCount + 1;
      if bitsCount == 8 {
        var byte := bitsBuffer as u8;
        BitsOfAppend(output, [byte]);
        BitsOfOne(byte);
        output, bitsBuffer, bitsCount := output + [byte], 0, 0;
        NoBits();
      }
    }

    method WriteBits(value: Word, numBits: nat)
      requires Ok() && numBits <= 64
      modifies this`bitsBuffer, this`bitsCount, this`output
      ensures Ok() && Written() == old(Written()) + Low(value, numBits)
    {
      var i := numBits;
      while i > 0
        invariant 0 <= i <= numBits
        invariant Ok() && Written() == old(Written()) + Low(value, numBits)[..numBits - i]
      {
        i := i - 1;
        PushBit(value[63 - i]);
        assert Low(value, numBits)[..numBits - i] == Low(value, numBits)[..numBits - i - 1] + [value[63 - i]];
      }
      assert Low(value, numBits)[..numBits] == Low(value, numBits);
    }

    method EncodePayload(xor: Word)
      requires Ok()
      modifies this`prevLeading, this`prevTrailing, this`bitsBuffer, this`bitsCount, this`output
      ensures Ok()
      ensures var w := WritePayload(old(St()), xor); St() == w.0 && Written() == old(Written()) + w.1
    {
      hide PayloadOf, Low, Num, Written, Pow2;
      var p := PayloadOf(xor);
      PayloadFits(xor);
      if prevLeading != UNSET && p.leading == prevLeading && p.trailing == prevTrailing {
        WriteBits(Num(0), 1);
        WriteBits(p.value, p.significant);
      } else {
        WriteBits(Num(1), 1);
        WriteBits(Num(p.leading), 6);
        WriteBits(Num(p.trailing), 6);
        WriteBits(p.value, p.significant);
        prevLeading, prevTrailing := p.leading, p.trailing;
      }
    }

    /** The search loop over the ring. */
    method Search(v: Word, xor: Word) returns (best: Best)
      requires Ok()
      ensures best == BestFrom(v, history[..], 0, Best(xor, None))
    {
      hide Xor, Leading;
      best := Best(xor, None);
      var i := 0;
      while i < 128
        invariant 0 <= i <= 128
        invariant BestOk(v, history[..], best)
        invariant BestFrom(v, history[..], 0, Best(xor, None)) == BestFrom(v, history[..], i, best)
      {
        var candidate := Xor(v, history[i]);
        if Leading(candidate) > Leading(best.xor) {
          best := Best(candidate, Some(i));
        }
        i := i + 1;
      }
    }

    /** The value into the ring. */
    method StoreWord(v: Word)
      requires Ok()
      modifies this`historyIdx, this`prevVal, history
      ensures Ok() && St() == Remember(old(St()), v)
    {
      prevVal := v;
      history[historyIdx % 128] := v;
      historyIdx := historyIdx + 1;
    }

    method EncodeWord(v: Word)
      requires Ok()
      modifies this`historyIdx, this`prevVal, this`prevLeading, this`prevTrailing
      modifies this`bitsBuffer, this`bitsCount, this`output, history
      ensures Ok()
      ensures var e := EncodeOne(old(St()), count == 0, v); St() == e.0 && Written() == old(Written()) + e.1
      ensures old(Written()) <= Written() && ValueBits(old(St()), count == 0, v, Written()[|old(Written())|..], St())
    {
      hide Low, Num, Written, WritePayload, BestFrom, Xor, Pow2, Remember, ValueBits;
      EncodedValue(St(), count == 0, v);
      if count == 0 {
        prevVal := v;
        history[0] := v;
        historyIdx := 1;
        WriteBits(v, 64);
        return;
      }
      var xor := Xor(v, prevVal);
      if xor == Falses(64) {
        WriteBits(Num(0), 2);
      } else {
        var best := Search(v, xor);
        if best.at.Some? {
          WriteBits(Num(1), 2);
          WriteBits(Num(best.at.value), 7);
          EncodePayload(best.xor);
        } else {
          WriteBits(Num(1), 1);
          EncodePayload(xor);
        }
      }
      StoreWord(v);
    }

    /** `encode_f64` on the value's bit pattern. */
    method EncodeF64(v: Word)
      requires Valid()
      modifies this, history
      ensures Valid() && values == old(values) + [v]
    {
      hide EncodeOne, EncodeAll, Written, StateOk, Pow2, Start, Wrap32;
      CountStep(|values|);
      EncodeMore(Start(), 0, values, v);
      EncodeWord(v);
      count := Wrap32(count + 1);
      values := values + [v];
    }

    /** `encode_f32`: the 32 bits in the upper half of a word. */
    method EncodeF32(bits: seq<bool>)
      requires Valid() && |bits| == 32
      modifies this, history
      ensures Valid() && values == old(values) + [bits + Falses(32)]
    {
      EncodeF64(bits + Falses(32));
    }

    method Finish() returns (data: Bytes)
      requires Valid()
      modifies this
      ensures data == Finished(values) && values == old(values)
    {
      hide EncodeAll, EncodeOne, PackBits, ShiftedUp, Pow2, BitsOf, ToBits;
      ghost var bits := Written();
      PackTail(output, bitsBuffer, bitsCount);
      if bitsCount > 0 {
        var shift := 8 - bitsCount;
        var byte := ShiftedUp(bitsBuffer, shift) % 256;
        output := output + [byte as u8];
        bitsBuffer, bitsCount := 0, 0;
      }
      data := LittleEndian.Encode(count, 4) + output;
    }
  }

  lemma NoBits()
    ensures ToBits(0, 0) == [] && Pow2(0) == 1
  {
  }

  lemma PayloadFits(xor: Word)
    ensures PayloadOf(xor).leading <= 63 && PayloadOf(xor).trailing <= 63 && PayloadOf(xor).significant <= 64
  {
  }

  lemma {:induction false} LowByte(n: nat, width: nat)
    requires width <= 8
    ensures ToBits(n % 256, width) == ToBits(n, width)
  {
    LowByteStep(n, width, 8);
  }

  lemma {:induction false} LowByteStep(n: nat, width: nat, k: nat)
    requires width <= k
    ensures ToBits(n % Pow2(k), width) == ToBits(n, width)
    ensures Pow2(8) == 256
  {
    Pow2Of8();
    if width > 0 {
      HalfMod(n, Pow2(k - 1));
      LowByteStep(n / 2, width - 1, k - 1);
    }
  }

  /** The last, partial byte shifted up is the packing's padded byte. */
  lemma PackTail(output: Bytes, buffer: nat, count: nat)
    requires count < 8 && buffer < Pow2(count)
    ensures PackBits(BitsOf(output) + ToBits(buffer, count))
            == if count == 0 then output else output + [(ShiftedUp(buffer, 8 - count) % 256) as u8]
  {
    hide BitsOf, ToBits, PackBits, ShiftedUp, Pow2;
    var bits := BitsOf(output) + ToBits(buffer, count);
    if count == 0 {
      assert bits + Falses(0) == BitsOf(output);
      PackIs(output, bits, 0);
    } else {
      var byte := (ShiftedUp(buffer, 8 - count) % 256) as u8;
      ShiftBits(buffer, count, 8 - count);
      LowByte(ShiftedUp(buffer, 8 - count), 8);
      BitsOfOne(byte);
      BitsOfAppend(output, [byte]);
      assert BitsOf(output + [byte]) == bits + Falses(8 - count);
      PackIs(output + [byte], bits, 8 - count);
    }
  }

  class Decoder {
    const data: Bytes
    const history: array<Word>
    var cursor: nat
    var historyIdx: nat
    var prevVal: Word
    var prevLeading: nat
    var prevTrailing: nat
    var currentByte: u8
    var bitsInByteLeft: nat
    const totalCount: u32
    var decodedCount: u32
    ghost var pos: nat

    ghost function St(): State
      reads this`historyIdx, this`prevVal, this`prevLeading, this`prevTrailing, history
    {
      State(history[..], historyIdx, prevVal, prevLeading, prevTrailing)
    }

    ghost function Stream(): seq<bool> {
      if |data| >= 4 then BitsOf(data[4..]) else []
    }

    /** The unread bits of the current byte are the stream's next ones; past the end they are zero. */
    ghost predicate AtPos()
      reads this`cursor, this`currentByte, this`bitsInByteLeft, this`pos
    {
      && 4 <= cursor <= |data| && bitsInByteLeft <= 8
      && (pos + bitsInByteLeft == 8 * (cursor - 4)
          || (cursor == |data| && pos + bitsInByteLeft >= |Stream()|))
      && ByteBits(currentByte)[8 - bitsInByteLeft..] == ReadBits(Stream(), pos, bitsInByteLeft)
    }

    ghost predicate Valid()
      reads this, history
    {
      AtPos() && history.Length == 128 && StateOk(St()) && decodedCount <= totalCount
    }

    /** The values still to come. */
    ghost function Rest(): seq<Word>
      requires Valid()
      reads this, history
    {
      DecodeAll(St(), decodedCount, Stream(), pos, totalCount - decodedCount)
    }

    /** Called by `OpenDecoder` once the header is known to be there. */
    constructor (data: Bytes, total: u32)
      requires |data| >= 4
      ensures Valid() && fresh(history) && this.data == data && totalCount == total
      ensures Rest() == DecodeAll(Start(), 0, BitsOf(data[4..]), 0, total)
    {
      this.data := data;
      history := new Word[128](_ => Falses(64));
      cursor, historyIdx, prevVal, prevLeading, prevTrailing := 4, 0, Falses(64), UNSET, UNSET;
      currentByte, bitsInByteLeft, totalCount, decodedCount, pos := 0, 0, total, 0, 0;
      new;
      assert history[..] == seq(128, _ => Falses(64));
      assert St() == Start();
    }

    method NextByte()
      requires AtPos() && bitsInByteLeft == 0
      modifies this`cursor, this`currentByte, this`bitsInByteLeft
      ensures AtPos() && bitsInByteLeft == 8
    {
      if cursor < |data| {
        ByteInStream(data[4..], cursor - 4);
        currentByte, cursor := data[cursor], cursor + 1;
      } else {
        ZeroBits(8);
        currentByte := 0;
        ReadPast(Stream(), pos, 8);
      }
      bitsInByteLeft := 8;
    }

    method ReadBit() returns (bit: bool)
      requires AtPos()
      modifies this`cursor, this`currentByte, this`bitsInByteLeft, this`pos
      ensures AtPos() && pos == old(pos) + 1 && bit == Bit(Stream(), old(pos))
    {
      if bitsInByteLeft == 0 {
        NextByte();
      }
      hide ByteBits, ReadBits, Stream, Bit;
      NextShown(ByteBits(currentByte), bitsInByteLeft, Stream(), pos);
      bitsInByteLeft := bitsInByteLeft - 1;
      bit := ByteBits(currentByte)[7 - bitsInByteLeft];
      pos := pos + 1;
    }

    method ReadWord(numBits: nat) returns (result: Word)
      requires AtPos() && numBits <= 64
      modifies this`cursor, this`currentByte, this`bitsInByteLeft, this`pos
      ensures AtPos() && pos == old(pos) + numBits
      ensures result == Falses(64 - numBits) + ReadBits(Stream(), old(pos), numBits)
    {
      result := Falses(64);
      var i := 0;
      while i < numBits
        invariant 0 <= i <= numBits && AtPos() && pos == old(pos) + i
        invariant result == Falses(64 - i) + ReadBits(Stream(), old(pos), i)
      {
        hide AtPos, ReadBits, Stream, Bit;
        ReadLast(Stream(), old(pos), i);
        ghost var read := ReadBits(Stream(), old(pos), i);
        var bit := ReadBit();
        result := result[1..] + [bit];
        assert result == Falses(64 - (i + 1)) + (read + [bit]);
        i := i + 1;
      }
    }

    method ReadNumber(numBits: nat) returns (n: nat)
      requires AtPos() && numBits <= 64
      modifies this`cursor, this`currentByte, this`bitsInByteLeft, this`pos
      ensures AtPos() && pos == old(pos) + numBits
      ensures n == FromBits(ReadBits(Stream(), old(pos), numBits))
    {
      var w := ReadWord(numBits);
      FromPadded(64 - numBits, ReadBits(Stream(), old(pos), numBits));
      n := FromBits(w);
    }

    method ReadFlag() returns (flag: bool)
      requires AtPos()
      modifies this`cursor, this`currentByte, this`bitsInByteLeft, this`pos
      ensures AtPos() && pos == old(pos) + 1 && ReadBits(Stream(), old(pos), 1) == [flag]
    {
      flag := ReadBit();
    }

    method DecodePayload() returns (xor: Word)
      requires Valid()
      modifies this`cursor, this`currentByte, this`bitsInByteLeft, this`pos, this`prevLeading, this`prevTrailing
      ensures Valid() && (St(), xor, pos) == ReadPayload(old(St()), Stream(), old(pos))
    {
      hide AtPos, ReadBits, FromBits, ShiftLeft;
      PayloadKeepsOk(St(), Stream(), pos);
      var renewed := ReadFlag();
      if renewed {
        prevLeading := ReadNumber(6);
        prevTrailing := ReadNumber(6);
      }
      var n := Significant(prevLeading, prevTrailing);
      var meaningful := ReadWord(n);
      xor := ShiftLeft(meaningful, prevTrailing % 64);
    }

    method StoreWord(v: Word)
      requires Valid()
      modifies this`historyIdx, this`prevVal, history
      ensures Valid() && St() == Remember(old(St()), v)
    {
      prevVal := v;
      history[historyIdx % 128] := v;
      historyIdx := historyIdx + 1;
    }

    /** The payload against the word in slot `at` of the ring. */
    method DecodeAgainst(base: Word) returns (v: Word)
      requires Valid()
      modifies this`cursor, this`currentByte, this`bitsInByteLeft, this`pos
      modifies this`historyIdx, this`prevVal, this`prevLeading, this`prevTrailing, history
      ensures Valid()
      ensures var p := ReadPayload(old(St()), Stream(), old(pos));
              StateOk(p.0) && v == Xor(base, p.1) && pos == p.2 && St() == Remember(p.0, v)
    {
      hide AtPos, ReadPayload, Xor, Remember, Stream;
      PayloadKeepsOk(St(), Stream(), pos);
      var xor := DecodePayload();
      v := Xor(base, xor);
      StoreWord(v);
    }

    method DecodeFirst() returns (v: Word)
      requires Valid()
      modifies this`cursor, this`currentByte, this`bitsInByteLeft, this`pos
      modifies this`historyIdx, this`prevVal, history
      ensures Valid() && (St(), v, pos) == DecodeOne(old(St()), true, Stream(), old(pos))
    {
      hide AtPos, ReadBits;
      v := ReadWord(64);
      assert v == ReadBits(Stream(), old(pos), 64);
      prevVal := v;
      history[0] := v;
      historyIdx := 1;
    }

    method DecodeWord() returns (v: Word)
      requires Valid()
      modifies this`cursor, this`currentByte, this`bitsInByteLeft, this`pos
      modifies this`historyIdx, this`prevVal, this`prevLeading, this`prevTrailing, history
      ensures Valid() && (St(), v, pos) == DecodeOne(old(St()), decodedCount == 0, Stream(), old(pos))
    {
      hide AtPos, ReadBits, FromBits, ReadPayload, Xor, Remember, StateOk;
      if decodedCount == 0 {
        v := DecodeFirst();
        return;
      }
      var high := ReadFlag();
      if high {
        v := DecodeAgainst(prevVal);
        return;
      }
      var matched := ReadFlag();
      if matched {
        var at := ReadNumber(7);
        v := DecodeAgainst(history[at % 128]);
      } else {
        v := prevVal;
        StoreWord(v);
      }
    }

    /** `decode_f64`: the next value, or nothing once the announced count is reached. */
    method DecodeF64() returns (r: Option<Word>)
      requires Valid()
      modifies this, history
      ensures Valid()
      ensures old(Rest()) == [] ==> r.None? && Rest() == []
      ensures old(Rest()) != [] ==> r == Some(old(Rest())[0]) && Rest() == old(Rest())[1..]
    {
      hide AtPos, DecodeOne, StateOk;
      if decodedCount >= totalCount {
        return None;
      }
      var v := DecodeWord();
      decodedCount := decodedCount + 1;
      r := Some(v);
    }

    /** `decode_f32`: the upper 32 bits of the next word. */
    method DecodeF32() returns (r: Option<seq<bool>>)
      requires Valid()
      modifies this, history
      ensures Valid()
      ensures old(Rest()) == [] ==> r.None? && Rest() == []
      ensures old(Rest()) != [] ==> r == Some(old(Rest())[0][..32]) && Rest() == old(Rest())[1..]
    {
      var w := DecodeF64();
      r := if w.Some? then Some(w.value[..32]) else None;
    }
  }

  lemma NextShown(byte: seq<bool>, left: nat, stream: seq<bool>, pos: nat)
    requires |byte| == 8 && 1 <= left <= 8 && byte[8 - left..] == ReadBits(stream, pos, left)
    ensures byte[8 - left] == Bit(stream, pos) && byte[8 - (left - 1)..] == ReadBits(stream, pos + 1, left - 1)
  {
    hide ReadBits, Bit;
    ReadFirst(stream, pos, left);
    assert byte[8 - left..][1..] == byte[8 - (left - 1)..];
  }

  lemma ByteInStream(bytes: Bytes, k: nat)
    requires k < |bytes|
    ensures ByteBits(bytes[k]) == ReadBits(BitsOf(bytes), 8 * k, 8)
  {
    hide BitsOf, ByteBits;
    var s := BitsOf(bytes);
    forall i | 0 <= i < 8 ensures ByteBits(bytes[k])[i] == ReadBits(s, 8 * k, 8)[i] {
      BitsOfAt(bytes, k, i);
      assert ReadBits(s, 8 * k, 8)[i] == Bit(s, 8 * k + i);
    }
  }

  /** `Chimp128Decoder::new`: the count is read, or the buffer is too small. */
  method OpenDecoder(data: Bytes) returns (r: Result<Decoder, TpxError>)
    ensures r.Failure? <==> Decoded(data).Failure?
    ensures r.Failure? ==> r.error == BufferTooSmall(4, |data|) && Decoded(data) == Failure(r.error)
    ensures r.Success? ==> fresh(r.value) && fresh(r.value.history) && r.value.Valid()
                           && Decoded(data) == Success(r.value.Rest())
  {
    if |data| < 4 {
      return Failure(BufferTooSmall(4, |data|));
    }
    var total := LittleEndian.ReadU32(data, 0).value;
    var d := new Decoder(data, total);
    return Success(d);
  }
}

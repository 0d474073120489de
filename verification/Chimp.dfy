// The Chimp128 format: two state machines, one writing bits and one reading them, kept in step by the
// bits alone (crates/tpx-codec/src/chimp128.rs).

module Chimp {
  import opened Wrappers
  import opened Types
  import opened Arithmetic
  import opened Bits
  import LittleEndian

  /** A 64-bit word, most significant bit first. */
  type Word = s: seq<bool> | |s| == 64 witness Falses(64)

  /** `u8::MAX`: no bounds remembered yet. */
  const UNSET: nat := 255

  /** What both sides carry from value to value: the history ring, its next index, and the last zero bounds. */
  datatype State = State(history: seq<Word>, index: nat, prev: Word, leading: nat, trailing: nat)

  ghost predicate StateOk(st: State) {
    |st.history| == 128 && st.leading <= UNSET && st.trailing <= UNSET
  }

  function Start(): (st: State)
    ensures StateOk(st)
  {
    State(seq(128, _ => Falses(64)), 0, Falses(64), UNSET, UNSET)
  }

  // ---------- words ----------

  function Xor(a: Word, b: Word): Word {
    seq(64, i requires 0 <= i < 64 => a[i] != b[i])
  }

  function Num(n: nat): Word {
    ToBits(n, 64)
  }

  /** `write_bits` keeps the low `k` bits of its argument. */
  function Low(w: Word, k: nat): (s: seq<bool>)
    requires k <= 64
    ensures |s| == k
  {
    w[64 - k..]
  }

  function ShiftRight(w: Word, k: nat): Word
    requires k < 64
  {
    Falses(k) + w[..64 - k]
  }

  function ShiftLeft(w: Word, k: nat): Word
    requires k < 64
  {
    w[k..] + Falses(k)
  }

  function Leading(s: seq<bool>): (n: nat)
    ensures n <= |s| && (forall i :: 0 <= i < n ==> !s[i]) && (n < |s| ==> s[n])
  {
    if s == [] || s[0] then 0 else 1 + Leading(s[1..])
  }

  function Trailing(s: seq<bool>): (n: nat)
    ensures n <= |s| && (forall i :: |s| - n <= i < |s| ==> !s[i]) && (n < |s| ==> s[|s| - n - 1])
  {
    if s == [] || s[|s| - 1] then 0 else 1 + Trailing(s[..|s| - 1])
  }

  function Min(a: nat, b: nat): nat {
    if a <= b then a else b
  }

  /** `saturating_sub`. */
  function SatSub(a: nat, b: nat): nat {
    if a >= b then a - b else 0
  }

  function Max1(n: nat): nat {
    if n >= 1 then n else 1
  }

  function Significant(leading: nat, trailing: nat): (n: nat)
    ensures 1 <= n <= 64
  {
    Max1(SatSub(SatSub(64, leading), trailing))
  }

  // ---------- the XOR payload ----------

  datatype Payload = Payload(leading: nat, trailing: nat, significant: nat, value: Word)

  function PayloadOf(xor: Word): Payload {
    if xor == Falses(64) then Payload(63, 0, 1, Falses(64))
    else
      var lz, tz := Min(Leading(xor), 63), Min(Trailing(xor), 63);
      Payload(lz, tz, Significant(lz, tz), ShiftRight(xor, tz))
  }

  function WritePayload(st: State, xor: Word): (State, seq<bool>) {
    var p := PayloadOf(xor);
    if st.leading != UNSET && p.leading == st.leading && p.trailing == st.trailing then
      (st, Low(Num(0), 1) + Low(p.value, p.significant))
    else
      (st.(leading := p.leading, trailing := p.trailing),
       Low(Num(1), 1) + (Low(Num(p.leading), 6) + (Low(Num(p.trailing), 6) + Low(p.value, p.significant))))
  }

  /** Bounds read back or remembered; a shift by 64 or more wraps its count, as the machine does. */
  function ReadPayload(st: State, stream: seq<bool>, pos: nat): (State, Word, nat)
    requires StateOk(st)
  {
    var renewed := ReadBits(stream, pos, 1) == [true];
    var lz := if renewed then FromBits(ReadBits(stream, pos + 1, 6)) else st.leading;
    var tz := if renewed then FromBits(ReadBits(stream, pos + 7, 6)) else st.trailing;
    var start := if renewed then pos + 13 else pos + 1;
    var n := Significant(lz, tz);
    var meaningful: Word := Falses(64 - n) + ReadBits(stream, start, n);
    (st.(leading := lz, trailing := tz), ShiftLeft(meaningful, tz % 64), start + n)
  }

  // ---------- one value ----------

  datatype Best = Best(xor: Word, at: Option<nat>)

  /** A candidate is the XOR with the slot it names. */
  predicate BestOk(v: Word, history: seq<Word>, best: Best)
    requires |history| == 128
  {
    best.at.Some? ==> best.at.value < 128 && best.xor == Xor(v, history[best.at.value])
  }

  /** The search over history slots `i..128`: strictly more leading zeros wins. */
  function BestFrom(v: Word, history: seq<Word>, i: nat, best: Best): (r: Best)
    requires |history| == 128 && i <= 128
    requires BestOk(v, history, best)
    ensures BestOk(v, history, r)
    decreases 128 - i
  {
    if i == 128 then best
    else
      var candidate := Xor(v, history[i]);
      BestFrom(v, history, i + 1, if Leading(candidate) > Leading(best.xor) then Best(candidate, Some(i)) else best)
  }

  function Remember(st: State, v: Word): (r: State)
    requires StateOk(st)
    ensures StateOk(r)
  {
    st.(prev := v, history := st.history[st.index % 128 := v], index := st.index + 1)
  }

  /** The first value is written whole. */
  function First(st: State, v: Word): (r: State)
    requires StateOk(st)
    ensures StateOk(r)
  {
    st.(prev := v, history := st.history[0 := v], index := 1)
  }

  function EncodeOne(st: State, first: bool, v: Word): (r: (State, seq<bool>))
    requires StateOk(st)
    ensures StateOk(r.0)
  {
    if first then (First(st, v), Low(v, 64))
    else
      var xor := Xor(v, st.prev);
      if xor == Falses(64) then (Remember(st, v), Low(Num(0), 2))
      else
        var best := BestFrom(v, st.history, 0, Best(xor, None));
        if best.at.Some? then
          var w := WritePayload(st, best.xor);
          (Remember(w.0, v), Low(Num(1), 2) + (Low(Num(best.at.value), 7) + w.1))
        else
          var w := WritePayload(st, xor);
          (Remember(w.0, v), Low(Num(1), 1) + w.1)
  }

  function DecodeOne(st: State, first: bool, stream: seq<bool>, pos: nat): (r: (State, Word, nat))
    requires StateOk(st)
    ensures StateOk(r.0)
  {
    if first then
      var v: Word := ReadBits(stream, pos, 64);
      (First(st, v), v, pos + 64)
    else if ReadBits(stream, pos, 1) == [false] then
      if ReadBits(stream, pos + 1, 1) == [false] then (Remember(st, st.prev), st.prev, pos + 2)
      else
        var at := FromBits(ReadBits(stream, pos + 2, 7)) % 128;
        var p := ReadPayload(st, stream, pos + 9);
        PayloadKeepsOk(st, stream, pos + 9);
        var v := Xor(st.history[at], p.1);
        (Remember(p.0, v), v, p.2)
    else
      var p := ReadPayload(st, stream, pos + 1);
      PayloadKeepsOk(st, stream, pos + 1);
      var v := Xor(st.prev, p.1);
      (Remember(p.0, v), v, p.2)
  }

  lemma PayloadKeepsOk(st: State, stream: seq<bool>, pos: nat)
    requires StateOk(st)
    ensures StateOk(ReadPayload(st, stream, pos).0)
  {
    ToFrom(ReadBits(stream, pos + 1, 6));
    ToFrom(ReadBits(stream, pos + 7, 6));
    Pow2Of8();
  }

  // ---------- the payload survives ----------

  lemma AllFalse(w: Word)
    ensures Leading(w) == 64 ==> w == Falses(64)
  {
  }

  /** A nonzero word has its significant bits strictly between its zero bounds. */
  lemma BoundsMeet(xor: Word)
    requires xor != Falses(64)
    ensures Leading(xor) + Trailing(xor) < 64
  {
    AllFalse(xor);
    assert xor[Leading(xor)];
  }

  /** Shifting the written bits back up restores the word. */
  lemma Unshift(xor: Word)
    ensures var p := PayloadOf(xor);
            && p.leading <= 63 && p.trailing <= 63 && p.significant == Significant(p.leading, p.trailing)
            && ShiftLeft(Falses(64 - p.significant) + Low(p.value, p.significant), p.trailing) == xor
  {
    if xor == Falses(64) {
      assert Low(Falses(64), 1) == [false];
    } else {
      hide ShiftLeft, ShiftRight, Low, Leading, Trailing, Falses;
      BoundsMeet(xor);
      ShiftUpDown(xor, Leading(xor), Trailing(xor));
    }
  }

  lemma ShiftUpDown(xor: Word, lz: nat, tz: nat)
    requires lz + tz < 64
    requires (forall i :: 0 <= i < lz ==> !xor[i]) && forall i :: 64 - tz <= i < 64 ==> !xor[i]
    ensures var n := 64 - lz - tz;
            ShiftLeft(Falses(64 - n) + Low(ShiftRight(xor, tz), n), tz) == xor
  {
    var n := 64 - lz - tz;
    var kept := Low(ShiftRight(xor, tz), n);
    assert kept == xor[lz..lz + n];
    var w := Falses(64 - n) + kept;
    assert Falses(lz) == xor[..lz] && Falses(tz) == xor[lz + n..];
    assert w[tz..] == Falses(lz) + kept;
    assert xor == xor[..lz] + xor[lz..lz + n] + xor[lz + n..];
  }

  lemma LowNum(n: nat, k: nat)
    requires k <= 64
    ensures Low(Num(n), k) == ToBits(n, k)
  {
    LowBits(n, 64, k);
  }

  lemma OneBits()
    ensures Low(Num(0), 1) == [false] && Low(Num(1), 1) == [true]
    ensures Low(Num(0), 2) == [false] + [false] && Low(Num(1), 2) == [false] + [true]
  {
    LowNum(0, 1);
    LowNum(1, 1);
    LowNum(0, 2);
    LowNum(1, 2);
    assert ToBits(0, 0) == [] && ToBits(0, 1) == [false] && ToBits(1, 1) == [true];
  }

  lemma ReadNum(stream: seq<bool>, pos: nat, n: nat, k: nat)
    requires k <= 64 && n < Pow2(k) && Holds(stream, pos, Low(Num(n), k))
    ensures FromBits(ReadBits(stream, pos, k)) == n
  {
    LowNum(n, k);
    ReadHeld(stream, pos, ToBits(n, k));
    FromTo(n, k);
  }

  /** Reading a payload at the bits that were written gives the word and leaves both sides alike. */
  lemma PayloadSync(st: State, xor: Word, stream: seq<bool>, pos: nat)
    requires StateOk(st) && Holds(stream, pos, WritePayload(st, xor).1)
    ensures var w := WritePayload(st, xor); ReadPayload(st, stream, pos) == (w.0, xor, pos + |w.1|)
  {
    hide PayloadOf, Low, ReadBits, Holds, ShiftLeft, Num;
    var p := PayloadOf(xor);
    Unshift(xor);
    var body := Low(p.value, p.significant);
    OneBits();
    Pow2Of8();
    if st.leading != UNSET && p.leading == st.leading && p.trailing == st.trailing {
      HoldsSplit(stream, pos, [false], body);
      ReadHeld(stream, pos, [false]);
      ReadHeld(stream, pos + 1, body);
    } else {
      var lz, tz := Low(Num(p.leading), 6), Low(Num(p.trailing), 6);
      HoldsSplit(stream, pos, [true], lz + (tz + body));
      HoldsSplit(stream, pos + 1, lz, tz + body);
      HoldsSplit(stream, pos + 7, tz, body);
      ReadHeld(stream, pos, [true]);
      ReadNum(stream, pos + 1, p.leading, 6);
      ReadNum(stream, pos + 7, p.trailing, 6);
      ReadHeld(stream, pos + 13, body);
    }
  }

  // ---------- the value survives ----------

  lemma XorBack(a: Word, b: Word)
    ensures Xor(b, Xor(a, b)) == a
  {
  }

  lemma XorZero(a: Word, b: Word)
    requires Xor(a, b) == Falses(64)
    ensures a == b
  {
    forall i | 0 <= i < 64 ensures a[i] == b[i] {
      assert Xor(a, b)[i] == false;
    }
  }

  /** The two machines in step: same bits, same state before, same value and same state after. */
  lemma OneSync(st: State, first: bool, v: Word, stream: seq<bool>, pos: nat)
    requires StateOk(st) && Holds(stream, pos, EncodeOne(st, first, v).1)
    ensures var e := EncodeOne(st, first, v); DecodeOne(st, first, stream, pos) == (e.0, v, pos + |e.1|)
  {
    hide Low, ReadBits, Holds, Num, WritePayload, ReadPayload, Xor, Remember, First, BestFrom;
    var xor := Xor(v, st.prev);
    OneBits();
    if first {
      assert Low(v, 64) == v by { LowAll(v); }
      ReadHeld(stream, pos, v);
    } else if xor == Falses(64) {
      XorZero(v, st.prev);
      HoldsSplit(stream, pos, [false], [false]);
      ReadHeld(stream, pos, [false]);
      ReadHeld(stream, pos + 1, [false]);
    } else {
      var best := BestFrom(v, st.history, 0, Best(xor, None));
      if best.at.Some? {
        MatchSync(st, v, best, stream, pos);
      } else {
        HoldsSplit(stream, pos, [true], WritePayload(st, xor).1);
        ReadHeld(stream, pos, [true]);
        PayloadSync(st, xor, stream, pos + 1);
        XorBack(v, st.prev);
      }
    }
  }

  lemma LowAll(v: Word)
    ensures Low(v, 64) == v
  {
  }

  lemma MatchSync(st: State, v: Word, best: Best, stream: seq<bool>, pos: nat)
    requires StateOk(st) && best.at.Some? && best.at.value < 128 && best.xor == Xor(v, st.history[best.at.value])
    requires Holds(stream, pos, ([false] + [true]) + (Low(Num(best.at.value), 7) + WritePayload(st, best.xor).1))
    ensures ReadBits(stream, pos, 1) == [false] && ReadBits(stream, pos + 1, 1) == [true]
    ensures FromBits(ReadBits(stream, pos + 2, 7)) % 128 == best.at.value
    ensures var w := WritePayload(st, best.xor); ReadPayload(st, stream, pos + 9) == (w.0, best.xor, pos + 9 + |w.1|)
    ensures Xor(st.history[best.at.value], best.xor) == v
  {
    hide Low, ReadBits, Holds, Num, WritePayload, ReadPayload, Xor;
    var at, rest := Low(Num(best.at.value), 7), WritePayload(st, best.xor).1;
    HoldsSplit(stream, pos, [false] + [true], at + rest);
    HoldsSplit(stream, pos, [false], [true]);
    HoldsSplit(stream, pos + 2, at, rest);
    ReadHeld(stream, pos, [false]);
    ReadHeld(stream, pos + 1, [true]);
    Pow2Of8();
    ReadNum(stream, pos + 2, best.at.value, 7);
    PayloadSync(st, best.xor, stream, pos + 9);
    XorBack(v, st.history[best.at.value]);
  }

  // ---------- whole streams ----------

  /** The values from the `count`-th on; the 32-bit count wraps, and at zero a value is written whole. */
  function EncodeAll(st: State, count: u32, vs: seq<Word>): (r: (State, seq<bool>))
    requires StateOk(st)
    ensures StateOk(r.0)
    decreases |vs|
  {
    if vs == [] then (st, [])
    else
      var e := EncodeOne(st, count == 0, vs[0]);
      var rest := EncodeAll(e.0, Wrap32(count + 1), vs[1..]);
      (rest.0, e.1 + rest.1)
  }

  function DecodeAll(st: State, count: u32, stream: seq<bool>, pos: nat, n: nat): (vs: seq<Word>)
    requires StateOk(st)
    ensures |vs| == n
    decreases n
  {
    if n == 0 then []
    else
      var d := DecodeOne(st, count == 0, stream, pos);
      [d.1] + DecodeAll(d.0, Wrap32(count + 1), stream, d.2, n - 1)
  }

  /** From equal states, the reader follows the writer over any number of values. */
  lemma {:induction false} AllSync(st: State, count: u32, vs: seq<Word>, stream: seq<bool>, pos: nat, n: nat)
    requires StateOk(st) && Holds(stream, pos, EncodeAll(st, count, vs).1) && n <= |vs|
    ensures DecodeAll(st, count, stream, pos, n) == vs[..n]
    decreases n
  {
    hide EncodeOne, DecodeOne, Holds, Wrap32;
    if n > 0 {
      var e := EncodeOne(st, count == 0, vs[0]);
      var rest := EncodeAll(e.0, Wrap32(count + 1), vs[1..]).1;
      HoldsSplit(stream, pos, e.1, rest);
      OneSync(st, count == 0, vs[0], stream, pos);
      AllSync(e.0, Wrap32(count + 1), vs[1..], stream, pos + |e.1|, n - 1);
    }
  }

  /** `finish`: the 32-bit count, then the bits packed into bytes. */
  function Finished(vs: seq<Word>): Bytes {
    LittleEndian.Encode(|vs| % U32_LIMIT, 4) + PackBits(EncodeAll(Start(), 0, vs).1)
  }

  function Decoded(data: Bytes): Result<seq<Word>, TpxError> {
    var n :- if |data| < 4 then Failure(BufferTooSmall(4, |data|)) else LittleEndian.ReadU32(data, 0);
    Success(DecodeAll(Start(), 0, BitsOf(data[4..]), 0, n))
  }

  /**
   * The decoder gives back the same bit patterns in order, as many as the wrapped count announces:
   * all of them exactly when there are fewer than 2^32.
   */
  lemma RoundTrip(vs: seq<Word>)
    ensures Decoded(Finished(vs)) == Success(vs[..|vs| % U32_LIMIT])
    ensures Decoded(Finished(vs)) == Success(vs) <==> |vs| < U32_LIMIT
  {
    hide EncodeAll, DecodeAll, PackBits, LittleEndian.Encode, LittleEndian.ReadU32;
    var bits := EncodeAll(Start(), 0, vs).1;
    var data := Finished(vs);
    var n := |vs| % U32_LIMIT;
    CountReads(n, PackBits(bits));
    assert data[4..] == PackBits(bits);
    PackHolds(bits);
    HoldsFirst(bits, Falses(8 * ((|bits| + 7) / 8) - |bits|));
    AllSync(Start(), 0, vs, BitsOf(PackBits(bits)), 0, n);
    if |vs| < U32_LIMIT {
      assert vs[..n] == vs;
    }
  }

  lemma HoldsFirst(s: seq<bool>, pad: seq<bool>)
    ensures Holds(s + pad, 0, s)
  {
  }

  lemma CountReads(n: u32, rest: Bytes)
    ensures LittleEndian.ReadU32(LittleEndian.Encode(n, 4) + rest, 0) == Success(n)
  {
    hide LittleEndian.Encode;
    var data := LittleEndian.Encode(n, 4) + rest;
    LittleEndian.AtWhole(data);
    LittleEndian.Field(data, 0, n, 4, rest);
  }

  // ---------- size ----------

  /** The search only improves: its answer has at least as many leading zeros as any candidate. */
  lemma {:induction false} BestIsBest(v: Word, history: seq<Word>, i: nat, best: Best)
    requires |history| == 128 && i <= 128
    requires BestOk(v, history, best)
    ensures var r := BestFrom(v, history, i, best);
            && Leading(r.xor) >= Leading(best.xor) && (r != best ==> Leading(r.xor) > Leading(best.xor) && r.at.Some?)
            && forall j :: i <= j < 128 ==> Leading(r.xor) >= Leading(Xor(v, history[j]))
    decreases 128 - i
  {
    hide Xor, Leading;
    if i < 128 {
      var candidate := Xor(v, history[i]);
      BestIsBest(v, history, i + 1, if Leading(candidate) > Leading(best.xor) then Best(candidate, Some(i)) else best);
    }
  }

  lemma PayloadSize(st: State, xor: Word)
    ensures |WritePayload(st, xor).1| <= 77
    ensures Leading(xor) >= 1 ==> |WritePayload(st, xor).1| <= 76
  {
    if xor != Falses(64) {
      BoundsMeet(xor);
    }
  }

  /** No value takes more than 85 bits: a history match saves at least one zero. */
  lemma OneSize(st: State, first: bool, v: Word)
    requires StateOk(st)
    ensures |EncodeOne(st, first, v).1| <= 85
  {
    hide WritePayload, Xor, BestFrom;
    var xor := Xor(v, st.prev);
    var best := BestFrom(v, st.history, 0, Best(xor, None));
    BestIsBest(v, st.history, 0, Best(xor, None));
    PayloadSize(st, best.xor);
    PayloadSize(st, xor);
  }

  lemma {:induction false} RestSize(st: State, count: u32, vs: seq<Word>)
    requires StateOk(st)
    ensures |EncodeAll(st, count, vs).1| <= 85 * |vs|
    decreases |vs|
  {
    hide EncodeOne, Wrap32;
    if vs != [] {
      OneSize(st, count == 0, vs[0]);
      RestSize(EncodeOne(st, count == 0, vs[0]).0, Wrap32(count + 1), vs[1..]);
    }
  }

  /** The worst case for `n` values. */
  lemma SizeBound(vs: seq<Word>)
    requires |vs| >= 1
    ensures |Finished(vs)| <= 4 + (64 + 85 * (|vs| - 1) + 7) / 8
  {
    hide EncodeAll, PackBits;
    var bits := EncodeAll(Start(), 0, vs).1;
    AllSize(vs);
    PackHolds(bits);
  }

  lemma AllSize(vs: seq<Word>)
    requires |vs| >= 1
    ensures |EncodeAll(Start(), 0, vs).1| <= 64 + 85 * (|vs| - 1)
  {
    hide EncodeOne, Start;
    FirstSize(Start(), vs[0]);
    RestSize(First(Start(), vs[0]), 1, vs[1..]);
    assert Wrap32(0 + 1) == 1;
  }

  lemma FirstSize(st: State, v: Word)
    requires StateOk(st)
    ensures EncodeOne(st, true, v).0 == First(st, v) && |EncodeOne(st, true, v).1| == 64
  {
  }
}

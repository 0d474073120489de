// What the encoder writes for a value, said by zero counts alone: which slot of the history it refers
// to, when it repeats the bounds, and which bits follow (crates/tpx-codec/src/chimp128.rs).

module ChimpFormat {
  import opened Wrappers
  import opened Types
  import opened Bits
  import opened Chimp
  import LittleEndian

  /** Slot `i` is the first with the most leading zeros in common with `v`. */
  ghost predicate FirstBest(history: seq<Word>, v: Word, i: nat)
    requires |history| == 128
  {
    && i < 128
    && (forall j :: 0 <= j < 128 ==> Leading(Xor(v, history[j])) <= Leading(Xor(v, history[i])))
    && (forall j :: 0 <= j < i ==> Leading(Xor(v, history[j])) < Leading(Xor(v, history[i])))
  }

  /** Some slot has more leading zeros in common with `v` than the previous value. */
  ghost predicate HistoryHelps(st: State, v: Word)
    requires StateOk(st)
  {
    exists j :: 0 <= j < 128 && Leading(Xor(v, st.history[j])) > Leading(Xor(v, st.prev))
  }

  /**
   * The bits of an XOR: one false bit and the bits between its zero bounds if those are the bounds
   * remembered, or else a true bit, both bounds in six bits each, and then those bits. A zero XOR is one
   * false bit between the bounds 63 and 0.
   */
  ghost predicate PayloadBits(st: State, xor: Word, bits: seq<bool>, after: State) {
    && var lz := if xor == Falses(64) then 63 else Leading(xor);
    && var tz := if xor == Falses(64) then 0 else Trailing(xor);
    && lz + tz < 64
    && var body := xor[lz..64 - tz];
    && (st.leading == lz && st.trailing == tz ==> bits == [false] + body && after == st)
    && (st.leading != lz || st.trailing != tz ==>
          bits == [true] + ToBits(lz, 6) + ToBits(tz, 6) + body && after == st.(leading := lz, trailing := tz))
  }

  /** What becomes of the state besides the bounds: the value is the previous one and takes the next slot of the ring. */
  ghost predicate Stored(st: State, mid: State, v: Word, after: State)
    requires StateOk(st)
  {
    && mid.history == st.history && mid.index == st.index
    && after.history == st.history[st.index % 128 := v] && after.index == st.index + 1 && after.prev == v
    && after.leading == mid.leading && after.trailing == mid.trailing
  }

  /** The bits of one value and the state they leave. */
  ghost predicate ValueBits(st: State, first: bool, v: Word, bits: seq<bool>, after: State)
    requires StateOk(st)
  {
    if first then bits == v && after == st.(prev := v, history := st.history[0 := v], index := 1)
    else if v == st.prev then bits == [false, false] && Stored(st, st, v, after)
    else if HistoryHelps(st, v) then
      exists i: nat, rest, mid ::
        && FirstBest(st.history, v, i) && bits == [false, true] + ToBits(i, 7) + rest
        && PayloadBits(st, Xor(v, st.history[i]), rest, mid) && Stored(st, mid, v, after)
    else
      exists rest, mid ::
        bits == [true] + rest && PayloadBits(st, Xor(v, st.prev), rest, mid) && Stored(st, mid, v, after)
  }

  // ---------- the payload ----------

  /** The bounds and the bits between them. */
  lemma PayloadParts(xor: Word)
    ensures var p := PayloadOf(xor);
            && p.leading == (if xor == Falses(64) then 63 else Leading(xor))
            && p.trailing == (if xor == Falses(64) then 0 else Trailing(xor))
            && p.leading + p.trailing < 64 && Low(p.value, p.significant) == xor[p.leading..64 - p.trailing]
  {
    hide Leading, Trailing, ShiftRight, Low;
    if xor == Falses(64) {
      ZeroBody();
    } else {
      BoundsMeet(xor);
      KeptBits(xor, Leading(xor), Trailing(xor));
    }
  }

  lemma WrittenPayload(st: State, xor: Word)
    ensures PayloadBits(st, xor, WritePayload(st, xor).1, WritePayload(st, xor).0)
  {
    hide Num, Leading, Trailing, PayloadOf, Low, Falses;
    PayloadParts(xor);
    OneBits();
    var p := PayloadOf(xor);
    LowNum(p.leading, 6);
    LowNum(p.trailing, 6);
  }

  lemma ZeroBody()
    ensures Falses(64)[63..64] == [false] == Low(Falses(64), 1)
  {
  }

  lemma KeptBits(xor: Word, lz: nat, tz: nat)
    requires lz + tz < 64
    ensures Low(ShiftRight(xor, tz), 64 - lz - tz) == xor[lz..64 - tz]
  {
    var n := 64 - lz - tz;
    var w := ShiftRight(xor, tz);
    assert w[64 - n..] == xor[..64 - tz][lz..];
  }

  // ---------- the slot ----------

  /** The search returns the first best slot, and none only if no slot helps. */
  lemma {:induction false} SearchIsFirst(v: Word, history: seq<Word>, i: nat, best: Best)
    requires |history| == 128 && i <= 128 && BestOk(v, history, best)
    ensures var r := BestFrom(v, history, i, best);
            && BestOk(v, history, r)
            && (r == best ==> forall j :: i <= j < 128 ==> Leading(Xor(v, history[j])) <= Leading(best.xor))
            && (r != best ==>
                  && r.at.Some? && i <= r.at.value < 128 && Leading(r.xor) > Leading(best.xor)
                  && (forall j :: i <= j < 128 ==> Leading(Xor(v, history[j])) <= Leading(r.xor))
                  && forall j :: i <= j < r.at.value ==> Leading(Xor(v, history[j])) < Leading(r.xor))
    decreases 128 - i
  {
    hide Xor, Leading;
    if i < 128 {
      var candidate := Xor(v, history[i]);
      SearchIsFirst(v, history, i + 1, if Leading(candidate) > Leading(best.xor) then Best(candidate, Some(i)) else best);
    }
  }

  lemma SameWord(v: Word, prev: Word)
    ensures Xor(v, prev) == Falses(64) <==> v == prev
  {
    if Xor(v, prev) == Falses(64) {
      XorZero(v, prev);
    }
    if v == prev {
      assert Xor(v, prev) == Falses(64);
    }
  }

  /** The encoder writes a value as the format says, and refers to the first best slot exactly when one helps. */
  lemma EncodedValue(st: State, first: bool, v: Word)
    requires StateOk(st)
    ensures ValueBits(st, first, v, EncodeOne(st, first, v).1, EncodeOne(st, first, v).0)
  {
    hide Xor, Leading, WritePayload, Num, Low, BestFrom, PayloadBits;
    OneBits();
    if first {
      LowAll(v);
    } else {
      SameWord(v, st.prev);
      if v != st.prev {
        var xor := Xor(v, st.prev);
        var none := Best(xor, None);
        var best := BestFrom(v, st.history, 0, none);
        SearchIsFirst(v, st.history, 0, none);
        WrittenPayload(st, best.xor);
        BoundsOnly(st, best.xor);
        var w := WritePayload(st, best.xor);
        if best.at.Some? {
          LowNum(best.at.value, 7);
          assert FirstBest(st.history, v, best.at.value);
          assert EncodeOne(st, first, v).1 == [false, true] + ToBits(best.at.value, 7) + w.1;
        } else {
          assert best == none;
        }
      }
    }
  }

  lemma BoundsOnly(st: State, xor: Word)
    ensures var m := WritePayload(st, xor).0; m.history == st.history && m.index == st.index && m.prev == st.prev
  {
  }

  // ---------- the stream ----------

  /** The bits of the values from the `count`-th on, one after the other; a value is written whole when the count wraps to zero. */
  ghost predicate StreamBits(st: State, count: nat, vs: seq<Word>, bits: seq<bool>)
    requires StateOk(st)
    decreases |vs|
  {
    if vs == [] then bits == []
    else
      exists head, rest, after ::
        && StateOk(after) && bits == head + rest
        && ValueBits(st, count % 0x1_0000_0000 == 0, vs[0], head, after) && StreamBits(after, count + 1, vs[1..], rest)
  }

  lemma {:induction false} EncodedStream(st: State, count: nat, vs: seq<Word>)
    requires StateOk(st)
    ensures StreamBits(st, count, vs, EncodeAll(st, count % U32_LIMIT, vs).1)
    decreases |vs|
  {
    hide EncodeOne, EncodeAll, ValueBits, StreamBits, StateOk;
    if vs == [] {
      StreamEnds(st, count);
    } else {
      var e := EncodeOne(st, count % U32_LIMIT == 0, vs[0]);
      EncodedValue(st, count % U32_LIMIT == 0, vs[0]);
      EncodedStream(e.0, count + 1, vs[1..]);
      StreamMore(st, count, vs, e.1, EncodeAll(e.0, (count + 1) % U32_LIMIT, vs[1..]).1, e.0);
      AllMore(st, count, vs);
    }
  }

  lemma StreamEnds(st: State, count: nat)
    requires StateOk(st)
    ensures StreamBits(st, count, [], EncodeAll(st, count % U32_LIMIT, []).1)
  {
  }

  lemma StreamMore(st: State, count: nat, vs: seq<Word>, head: seq<bool>, rest: seq<bool>, after: State)
    requires StateOk(st) && StateOk(after) && vs != []
    requires ValueBits(st, count % U32_LIMIT == 0, vs[0], head, after) && StreamBits(after, count + 1, vs[1..], rest)
    ensures StreamBits(st, count, vs, head + rest)
  {
    hide ValueBits;
  }

  lemma AllMore(st: State, count: nat, vs: seq<Word>)
    requires StateOk(st) && vs != []
    ensures var e := EncodeOne(st, count % U32_LIMIT == 0, vs[0]);
            EncodeAll(st, count % U32_LIMIT, vs).1 == e.1 + EncodeAll(e.0, (count + 1) % U32_LIMIT, vs[1..]).1
  {
    hide EncodeOne;
    assert Wrap32(count % U32_LIMIT + 1) == (count + 1) % U32_LIMIT;
  }

  /** The whole output: the number of values in four bytes, and then the bits from a history of zeros and no bounds. */
  ghost predicate Stream(vs: seq<Word>, out: Bytes) {
    && |out| >= 4 && LittleEndian.Digits(out, 0, |vs| % 0x1_0000_0000, 4)
    && exists bits ::
         StreamBits(State(seq(128, _ => Falses(64)), 0, Falses(64), 255, 255), 0, vs, bits) && Packed(bits, out[4..])
  }

  lemma FinishedStream(vs: seq<Word>)
    ensures Stream(vs, Finished(vs))
  {
    hide EncodeAll, PackBits, StreamBits, LittleEndian.Encode, LittleEndian.Digits, Packed;
    var bits := EncodeAll(Start(), 0, vs).1;
    var out := Finished(vs);
    EncodedStream(Start(), 0, vs);
    PackBitsPacks(bits);
    LittleEndian.DigitsAt(out, 0, |vs| % U32_LIMIT, 4);
    assert out[4..] == PackBits(bits);
  }
}

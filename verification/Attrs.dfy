// Typed attributes of a tensor and their type-length-value encoding
// (crates/tpx-core/src/attrs.rs). Strings are their UTF-8 bytes.

module Utf8 {
  import opened Types

  predicate Continues(bs: Bytes, i: nat, lo: u8, hi: u8) {
    i < |bs| && lo <= bs[i] <= hi
  }

  /** Bytes of the well-formed UTF-8 sequence at the front of `bs`, 0 if there is none. */
  function Width(bs: Bytes): (n: nat)
    ensures n <= |bs|
  {
    if |bs| == 0 then 0
    else if bs[0] < 0x80 then 1
    else if 0xC2 <= bs[0] <= 0xDF && Continues(bs, 1, 0x80, 0xBF) then 2
    else if |bs| >= 3 && ThreeBytes(bs) then 3
    else if |bs| >= 4 && FourBytes(bs) then 4
    else 0
  }

  predicate ThreeBytes(bs: Bytes)
    requires |bs| >= 3
  {
    && Continues(bs, 2, 0x80, 0xBF)
    && (|| (bs[0] == 0xE0 && Continues(bs, 1, 0xA0, 0xBF))
        || (0xE1 <= bs[0] <= 0xEC && Continues(bs, 1, 0x80, 0xBF))
        || (bs[0] == 0xED && Continues(bs, 1, 0x80, 0x9F))
        || (0xEE <= bs[0] <= 0xEF && Continues(bs, 1, 0x80, 0xBF)))
  }

  predicate FourBytes(bs: Bytes)
    requires |bs| >= 4
  {
    && Continues(bs, 2, 0x80, 0xBF) && Continues(bs, 3, 0x80, 0xBF)
    && (|| (bs[0] == 0xF0 && Continues(bs, 1, 0x90, 0xBF))
        || (0xF1 <= bs[0] <= 0xF3 && Continues(bs, 1, 0x80, 0xBF))
        || (bs[0] == 0xF4 && Continues(bs, 1, 0x80, 0x8F)))
  }

  predicate Valid(bs: Bytes) {
    |bs| == 0 || (Width(bs) > 0 && Valid(bs[Width(bs)..]))
  }
}

// Byte strings in the order `sort` puts them.
module KeyOrder {
  import opened Types

  predicate Leq(a: Bytes, b: Bytes) {
    |a| == 0 || (|b| > 0 && (a[0] < b[0] || (a[0] == b[0] && Leq(a[1..], b[1..]))))
  }

  lemma {:induction false} Antisymmetric(a: Bytes, b: Bytes)
    requires Leq(a, b) && Leq(b, a)
    ensures a == b
  {
    if |a| > 0 {
      Antisymmetric(a[1..], b[1..]);
      assert a == [a[0]] + a[1..] && b == [b[0]] + b[1..];
    }
  }

  lemma {:induction false} Transitive(a: Bytes, b: Bytes, c: Bytes)
    requires Leq(a, b) && Leq(b, c)
    ensures Leq(a, c)
  {
    if |a| > 0 && a[0] == b[0] == c[0] {
      Transitive(a[1..], b[1..], c[1..]);
    }
  }

  lemma {:induction false} Total(a: Bytes, b: Bytes)
    ensures Leq(a, b) || Leq(b, a)
  {
    if |a| > 0 && |b| > 0 && a[0] == b[0] {
      Total(a[1..], b[1..]);
    }
  }

  predicate IsMin(m: Bytes, s: set<Bytes>) {
    m in s && forall k :: k in s ==> Leq(m, k)
  }

  lemma {:induction false} MinExists(s: set<Bytes>)
    requires s != {}
    ensures exists m :: IsMin(m, s)
    decreases |s|
  {
    var x :| x in s;
    Total(x, x);
    if s == {x} {
      assert IsMin(x, s);
    } else {
      MinExists(s - {x});
      var m :| IsMin(m, s - {x});
      Total(x, m);
      Total(m, m);
      var least := if Leq(x, m) then x else m;
      forall k | k in s ensures Leq(least, k) {
        if k != x && Leq(x, m) {
          Transitive(x, m, k);
        }
      }
      assert IsMin(least, s);
    }
  }

  /** The keys of a set, smallest first. */
  function Sorted(s: set<Bytes>): (keys: seq<Bytes>)
    ensures forall k :: k in keys <==> k in s
    ensures forall i, j :: 0 <= i < j < |keys| ==> keys[i] != keys[j] && Leq(keys[i], keys[j])
    decreases |s|
  {
    if s == {} then []
    else
      MinExists(s);
      assert forall a, b :: IsMin(a, s) && IsMin(b, s) ==> a == b by {
        forall a, b | IsMin(a, s) && IsMin(b, s) ensures a == b {
          Antisymmetric(a, b);
        }
      }
      var m :| m in s && IsMin(m, s);
      [m] + Sorted(s - {m})
  }

  /** Unsigned bytes decide at the first difference, and a proper prefix comes first. */
  ghost predicate Before(a: Bytes, b: Bytes) {
    exists n: nat :: DiffersAt(a, b, n) && n < |b| && (n == |a| || a[n] < b[n])
  }

  ghost predicate DiffersAt(a: Bytes, b: Bytes, n: nat) {
    n <= |a| && n <= |b| && a[..n] == b[..n]
  }

  lemma SameFirst(a: Bytes, b: Bytes, n: nat)
    requires DiffersAt(a, b, n) && n > 0
    ensures a[0] == b[0]
  {
    assert a[..n][0] == b[..n][0];
  }

  lemma {:induction false} LeqIsBefore(a: Bytes, b: Bytes)
    ensures Leq(a, b) <==> a == b || Before(a, b)
  {
    if |a| == 0 {
      assert DiffersAt(a, b, 0);
    } else if |b| > 0 {
      if a[0] == b[0] {
        LeqIsBefore(a[1..], b[1..]);
        assert a == [a[0]] + a[1..] && b == [b[0]] + b[1..];
        if Before(a[1..], b[1..]) {
          var n: nat :| DiffersAt(a[1..], b[1..], n) && n < |b[1..]| && (n == |a[1..]| || a[1..][n] < b[1..][n]);
          assert a[..n + 1] == [a[0]] + a[1..][..n] && b[..n + 1] == [b[0]] + b[1..][..n];
          assert DiffersAt(a, b, n + 1);
        }
        if Before(a, b) {
          var n: nat :| DiffersAt(a, b, n) && n < |b| && (n == |a| || a[n] < b[n]);
          assert a[1..][..n - 1] == a[..n][1..] && b[1..][..n - 1] == b[..n][1..];
          assert DiffersAt(a[1..], b[1..], n - 1);
        }
      } else {
        assert DiffersAt(a, b, 0);
        if Before(a, b) {
          var n: nat :| DiffersAt(a, b, n) && n < |b| && (n == |a| || a[n] < b[n]);
          if n > 0 {
            SameFirst(a, b, n);
            assert false;
          }
        }
      }
    }
  }

  lemma SortedByBytes(s: set<Bytes>)
    ensures forall i, j :: 0 <= i < j < |Sorted(s)| ==> Before(Sorted(s)[i], Sorted(s)[j])
  {
    hide Leq, Before;
    var keys := Sorted(s);
    forall i, j | 0 <= i < j < |keys| ensures Before(keys[i], keys[j]) {
      LeqIsBefore(keys[i], keys[j]);
    }
  }
}

module AttrsFormat {
  import opened Wrappers
  import opened Types
  import opened LittleEndian
  import Utf8
  import KeyOrder

  const MAX_ATTR_VALUE_SIZE := 4096

  type i64 = x: int | -0x8000_0000_0000_0000 <= x < 0x8000_0000_0000_0000

  /** A float is its 64-bit pattern. */
  datatype AttrValue =
    | StringValue(text: Bytes)
    | Int64Value(num: i64)
    | Float64Value(bits: u64)
    | BoolValue(flag: bool)
    | BytesValue(raw: Bytes)

  type AttrMap = map<Bytes, AttrValue>

  function TypeCode(v: AttrValue): (code: u8)
    ensures code <= 4
  {
    match v
    case StringValue(_) => 0
    case Int64Value(_) => 1
    case Float64Value(_) => 2
    case BoolValue(_) => 3
    case BytesValue(_) => 4
  }

  function ValueBytes(v: AttrValue): Bytes {
    match v
    case StringValue(text) => text
    case Int64Value(num) => Encode(num % U64_LIMIT, 8)
    case Float64Value(bits) => Encode(bits, 8)
    case BoolValue(flag) => [if flag then 1 else 0]
    case BytesValue(raw) => raw
  }

  /** Names longer than 255 bytes are cut to fit the one-byte length. */
  function StoredName(name: Bytes): (stored: Bytes)
    ensures |stored| <= 255
  {
    if |name| < 255 then name else name[..255]
  }

  function EncodeOne(name: Bytes, v: AttrValue): Bytes {
    Encode(|StoredName(name)|, 1) + (StoredName(name)
      + (Encode(TypeCode(v) as nat, 1) + (Encode(|ValueBytes(v)|, 2) + ValueBytes(v))))
  }

  function EncodeAll(names: seq<Bytes>, m: AttrMap): Bytes
    requires forall k :: k in names ==> k in m
  {
    if |names| == 0 then []
    else
      var name := names[|names| - 1];
      EncodeAll(names[..|names| - 1], m) + EncodeOne(name, m[name])
  }

  /** The encoding of a whole attribute map: its records in key order. */
  function EncodeMap(m: AttrMap): Bytes {
    EncodeAll(KeyOrder.Sorted(m.Keys), m)
  }

  function ParseValue(typeCode: u8, bs: Bytes): Result<AttrValue, TpxError> {
    match typeCode
    case 0 => if Utf8.Valid(bs) then Success(StringValue(bs)) else Failure(CorruptArchive)
    case 1 =>
      if |bs| != 8 then Failure(CorruptArchive)
      else
        var n :- ReadU64(bs, 0);
        Success(Int64Value(if n < U64_LIMIT / 2 then n else n - U64_LIMIT))
    case 2 =>
      if |bs| != 8 then Failure(CorruptArchive)
      else
        var n :- ReadU64(bs, 0);
        Success(Float64Value(n))
    case 3 => if |bs| != 1 then Failure(CorruptArchive) else Success(BoolValue(bs[0] != 0))
    case 4 => Success(BytesValue(bs))
    case _ => Failure(InvalidAttrType(typeCode))
  }

  /** One record at the cursor: its name, its value, and the position after it. */
  function ParseOne(buf: Bytes, pos: nat): (r: Result<(Bytes, AttrValue, nat), TpxError>)
    ensures r.Success? ==> r.value.2 > pos && |r.value.0| <= 255
  {
    var nameLen :- ReadU8(buf, pos);
    var name :- Take(buf, pos + 1, nameLen as nat);
    if !Utf8.Valid(name) then Failure(CorruptArchive)
    else
      var typePos := pos + 1 + |name|;
      var typeCode :- ReadU8(buf, typePos);
      if typeCode > 4 then Failure(InvalidAttrType(typeCode))
      else
        var valLen :- ReadU16(buf, typePos + 1);
        if valLen > MAX_ATTR_VALUE_SIZE then Failure(AttrValueTooLarge(valLen))
        else
          var bs :- Take(buf, typePos + 3, valLen);
          var v :- ParseValue(typeCode, bs);
          Success((name, v, typePos + 3 + valLen))
  }

  function ParseFrom(buf: Bytes, pos: nat, acc: AttrMap): Result<AttrMap, TpxError>
    decreases |buf| - pos
  {
    if pos >= |buf| then Success(acc)
    else
      var one :- ParseOne(buf, pos);
      ParseFrom(buf, one.2, acc[one.0 := one.1])
  }

  class Attrs {
    var entries: AttrMap

    constructor ()
      ensures entries == map[]
    {
      entries := map[];
    }

    method Set(name: Bytes, value: AttrValue) returns (r: Result<(), TpxError>)
      modifies this
      ensures |ValueBytes(value)| > 4096 ==>
                r == Failure(AttrValueTooLarge(|ValueBytes(value)|)) && entries == old(entries)
      ensures |ValueBytes(value)| <= 4096 ==>
                r == Success(()) && entries == old(entries)[name := value]
    {
      var valLen := match value {
        case StringValue(text) => |text|
        case Int64Value(_) => 8
        case Float64Value(_) => 8
        case BoolValue(_) => 1
        case BytesValue(raw) => |raw|
      };
      if valLen > MAX_ATTR_VALUE_SIZE {
        return Failure(AttrValueTooLarge(valLen));
      }
      entries := entries[name := value];
      return Success(());
    }

    method Remove(name: Bytes) returns (r: Option<AttrValue>)
      modifies this
      ensures entries == old(entries) - {name}
      ensures r == if name in old(entries) then Some(old(entries)[name]) else None
    {
      r := if name in entries then Some(entries[name]) else None;
      entries := entries - {name};
    }

    method Serialize() returns (buf: Bytes)
      ensures buf == EncodeMap(entries)
    {
      var names := KeyOrder.Sorted(entries.Keys);
      buf := [];
      for i := 0 to |names|
        invariant buf == EncodeAll(names[..i], entries)
      {
        assert names[..i + 1][..i] == names[..i];
        var val := entries[names[i]];
        var name := StoredName(names[i]);
        var record := Encode(|name|, 1) + (name
          + (Encode(TypeCode(val) as nat, 1) + (Encode(|ValueBytes(val)|, 2) + ValueBytes(val))));
        buf := buf + record;
      }
      assert names[..|names|] == names;
    }

    static method Deserialize(buf: Bytes) returns (r: Result<Attrs, TpxError>)
      ensures r.Success? ==> fresh(r.value) && ParseFrom(buf, 0, map[]) == Success(r.value.entries)
      ensures r.Failure? ==> ParseFrom(buf, 0, map[]) == Failure(r.error)
    {
      var attrs := new Attrs();
      var pos: nat := 0;
      while pos < |buf|
        invariant ParseFrom(buf, 0, map[]) == ParseFrom(buf, pos, attrs.entries)
        decreases |buf| - pos
      {
        var one := ParseOne(buf, pos);
        if one.Failure? {
          return Failure(one.error);
        }
        ParsedSize(buf, pos);
        var stored := attrs.Set(one.value.0, one.value.1);
        pos := one.value.2;
      }
      return Success(attrs);
    }
  }

  /** A parsed value was at most 4096 bytes long, so storing it cannot be refused. */
  lemma ParsedSize(buf: Bytes, pos: nat)
    requires ParseOne(buf, pos).Success?
    ensures |ValueBytes(ParseOne(buf, pos).value.1)| <= MAX_ATTR_VALUE_SIZE
  {
    hide ReadU8, ReadU16, Utf8.Valid, ReadU64, Encode;
  }

  /** What the types and `set` guarantee about a stored attribute. */
  predicate Storable(name: Bytes, v: AttrValue) {
    Utf8.Valid(name) && |ValueBytes(v)| <= MAX_ATTR_VALUE_SIZE && (v.StringValue? ==> Utf8.Valid(v.text))
  }

  predicate AllStorable(m: AttrMap) {
    forall k :: k in m ==> Storable(k, m[k])
  }

  lemma ValueRoundTrip(v: AttrValue)
    requires v.StringValue? ==> Utf8.Valid(v.text)
    ensures ParseValue(TypeCode(v), ValueBytes(v)) == Success(v)
  {
    hide Encode, ReadU64, Utf8.Valid;
    match v {
      case Int64Value(num) => ReadBackAll(ValueBytes(v), 0, num % U64_LIMIT);
      case Float64Value(bits) => ReadBackAll(ValueBytes(v), 0, bits);
      case _ =>
    }
  }

  lemma OneRoundTrip(buf: Bytes, pos: nat, name: Bytes, v: AttrValue)
    requires At(buf, pos, EncodeOne(name, v))
    requires Storable(name, v) && |name| <= 255
    ensures ParseOne(buf, pos) == Success((name, v, pos + |EncodeOne(name, v)|))
  {
    hide At, Encode, ReadU8, ReadU16, ParseValue, TypeCode, ValueBytes, Utf8.Valid, Take;
    OneFields(buf, pos, name, v);
    ValueRoundTrip(v);
  }

  /** What stands where a record does. */
  lemma OneFields(buf: Bytes, pos: nat, name: Bytes, v: AttrValue)
    requires At(buf, pos, EncodeOne(name, v))
    requires |ValueBytes(v)| <= MAX_ATTR_VALUE_SIZE && |name| <= 255
    ensures ReadU8(buf, pos) == Success(|name| as u8) && Take(buf, pos + 1, |name|) == Success(name)
    ensures ReadU8(buf, pos + 1 + |name|) == Success(TypeCode(v))
    ensures ReadU16(buf, pos + 2 + |name|) == Success(|ValueBytes(v)|)
    ensures Take(buf, pos + 4 + |name|, |ValueBytes(v)|) == Success(ValueBytes(v))
    ensures |EncodeOne(name, v)| == 4 + |name| + |ValueBytes(v)|
  {
    hide At, Encode, ReadU8, ReadU16, TypeCode, ValueBytes, Take;
    assert StoredName(name) == name;
    var bs := ValueBytes(v);
    var l, t := Encode(|bs|, 2), Encode(TypeCode(v) as nat, 1);
    Field(buf, pos, |name|, 1, name + (t + (l + bs)));
    AtSplit(buf, pos + 1, name, t + (l + bs));
    Field(buf, pos + 1 + |name|, TypeCode(v) as nat, 1, l + bs);
    Field(buf, pos + 2 + |name|, |bs|, 2, bs);
    TakeAt(buf, pos + 1, name);
    TakeAt(buf, pos + 4 + |name|, bs);
  }

  function Restrict(m: AttrMap, names: seq<Bytes>): AttrMap {
    map k | k in names && k in m :: m[k]
  }

  /** Reading the records of `names` leaves the cursor after them and adds them to the map. */
  lemma {:induction false} AllRoundTrip(buf: Bytes, pos: nat, names: seq<Bytes>, m: AttrMap)
    requires forall k :: k in names ==> k in m && Storable(k, m[k]) && |k| <= 255
    requires At(buf, pos, EncodeAll(names, m))
    ensures ParseFrom(buf, pos, map[]) == ParseFrom(buf, pos + |EncodeAll(names, m)|, Restrict(m, names))
  {
    hide At, EncodeOne, ParseOne, Storable;
    if |names| > 0 {
      var init, name := names[..|names| - 1], names[|names| - 1];
      var before, one := EncodeAll(init, m), EncodeOne(name, m[name]);
      AtSplit(buf, pos, before, one);
      AllRoundTrip(buf, pos, init, m);
      OneRoundTrip(buf, pos + |before|, name, m[name]);
      AtBound(buf, pos + |before|, one);
      assert names == init + [name];
      assert Restrict(m, init)[name := m[name]] == Restrict(m, names);
    } else {
      assert Restrict(m, names) == map[];
    }
  }

  lemma {:induction false} ParsedNamesAreShort(buf: Bytes, pos: nat, acc: AttrMap)
    requires ParseFrom(buf, pos, acc).Success?
    requires forall k :: k in acc ==> |k| <= 255
    ensures forall k :: k in ParseFrom(buf, pos, acc).value ==> |k| <= 255
    decreases |buf| - pos
  {
    hide ParseOne;
    if pos < |buf| {
      var one := ParseOne(buf, pos).value;
      ParsedNamesAreShort(buf, one.2, acc[one.0 := one.1]);
    }
  }

  /**
   * Attributes survive serialization exactly when every name fits its one-byte length. A longer
   * name is cut on writing, so it can never come back.
   */
  lemma RoundTrip(m: AttrMap)
    requires AllStorable(m)
    ensures ParseFrom(EncodeMap(m), 0, map[]) == Success(m) <==> forall k :: k in m ==> |k| <= 255
  {
    hide ParseOne, EncodeOne, Storable, EncodeAll, At;
    var names, buf := KeyOrder.Sorted(m.Keys), EncodeMap(m);
    if forall k :: k in m ==> |k| <= 255 {
      AtWhole(buf);
      AllRoundTrip(buf, 0, names, m);
      assert Restrict(m, names) == m;
    }
    if ParseFrom(buf, 0, map[]) == Success(m) {
      ParsedNamesAreShort(buf, 0, map[]);
    }
  }

  // ---------- sizes ----------

  /** The bytes that all records of the map take. */
  ghost function Weight(m: AttrMap): nat
    decreases |m|
  {
    if m == map[] then 0
    else
      var k :| k in m;
      |EncodeOne(k, m[k])| + Weight(m - {k})
  }

  lemma {:induction false} WeightRemove(m: AttrMap, k: Bytes)
    requires k in m
    ensures Weight(m) == |EncodeOne(k, m[k])| + Weight(m - {k})
    decreases |m|
  {
    hide EncodeOne;
    var j :| j in m && Weight(m) == |EncodeOne(j, m[j])| + Weight(m - {j});
    if j != k {
      WeightRemove(m - {j}, k);
      WeightRemove(m - {k}, j);
      assert m - {j} - {k} == m - {k} - {j};
    }
  }

  lemma WeightPut(m: AttrMap, k: Bytes, v: AttrValue)
    ensures Weight(m[k := v]) <= Weight(m) + |EncodeOne(k, v)|
  {
    hide EncodeOne, Weight;
    WeightRemove(m[k := v], k);
    assert m[k := v] - {k} == m - {k};
    if k in m {
      WeightRemove(m, k);
    } else {
      assert m - {k} == m;
    }
  }

  lemma {:induction false} EncodedWeight(names: seq<Bytes>, m: AttrMap)
    requires forall k :: k in names ==> k in m
    requires forall i, j :: 0 <= i < j < |names| ==> names[i] != names[j]
    ensures |EncodeAll(names, m)| == Weight(Restrict(m, names))
  {
    hide EncodeOne, Weight;
    if |names| == 0 {
      assert Restrict(m, names) == map[];
      WeightNone();
    } else {
      var init, name := names[..|names| - 1], names[|names| - 1];
      EncodedWeight(init, m);
      RestrictLast(m, names);
      WeightRemove(Restrict(m, names), name);
    }
  }

  lemma WeightNone()
    ensures Weight(map[]) == 0
  {
  }

  lemma RestrictLast(m: AttrMap, names: seq<Bytes>)
    requires |names| > 0 && forall k :: k in names ==> k in m
    requires forall i, j :: 0 <= i < j < |names| ==> names[i] != names[j]
    ensures var name := names[|names| - 1];
            && name in Restrict(m, names) && Restrict(m, names)[name] == m[name]
            && Restrict(m, names) - {name} == Restrict(m, names[..|names| - 1])
  {
    var init, name := names[..|names| - 1], names[|names| - 1];
    assert names == init + [name];
    assert name !in init;
  }

  lemma MapWeight(m: AttrMap)
    ensures |EncodeMap(m)| == Weight(m)
  {
    var names := KeyOrder.Sorted(m.Keys);
    EncodedWeight(names, m);
    assert Restrict(m, names) == m;
  }

  lemma ParsedOneSize(buf: Bytes, pos: nat)
    requires ParseOne(buf, pos).Success?
    ensures var one := ParseOne(buf, pos).value; pos + |EncodeOne(one.0, one.1)| == one.2 <= |buf|
  {
    hide ReadU8, ReadU16, Utf8.Valid, ReadU64, Encode;
  }

  /** Whatever the bytes were, the parsed attributes take no more room than they had. */
  lemma {:induction false} ParsedWeight(buf: Bytes, pos: nat, acc: AttrMap)
    requires pos <= |buf| && ParseFrom(buf, pos, acc).Success?
    ensures Weight(ParseFrom(buf, pos, acc).value) <= Weight(acc) + (|buf| - pos)
    decreases |buf| - pos
  {
    hide ParseOne, EncodeOne, Weight;
    if pos < |buf| {
      var one := ParseOne(buf, pos).value;
      ParsedOneSize(buf, pos);
      WeightPut(acc, one.0, one.1);
      ParsedWeight(buf, one.2, acc[one.0 := one.1]);
    }
  }

  /** A block of bytes never parses to attributes that need a longer one. */
  lemma ParsedIsShort(buf: Bytes)
    requires ParseFrom(buf, 0, map[]).Success?
    ensures |EncodeMap(ParseFrom(buf, 0, map[]).value)| <= |buf|
  {
    ParsedWeight(buf, 0, map[]);
    MapWeight(ParseFrom(buf, 0, map[]).value);
  }
}

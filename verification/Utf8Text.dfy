// Which byte strings are text: the concatenations of encoded scalar values, with the encoding given by
// arithmetic on the scalar (sections 3 and 4 of RFC 3629). The byte-wise test of `Utf8` accepts exactly these.

module Utf8Text {
  import opened Types
  import opened Utf8

  /** A code point that is not a surrogate. */
  type Scalar = c: nat | c < 0xD800 || 0xE000 <= c < 0x11_0000

  function Encoding(c: Scalar): (bs: Bytes)
    ensures 1 <= |bs| <= 4
  {
    if c < 0x80 then [c as u8]
    else if c < 0x800 then [(0xC0 + c / 64) as u8, (0x80 + c % 64) as u8]
    else if c < 0x1_0000 then [(0xE0 + c / 4096) as u8, (0x80 + c / 64 % 64) as u8, (0x80 + c % 64) as u8]
    else [(0xF0 + c / 262144) as u8, (0x80 + c / 4096 % 64) as u8, (0x80 + c / 64 % 64) as u8, (0x80 + c % 64) as u8]
  }

  function EncodingAll(cs: seq<Scalar>): Bytes {
    if cs == [] then [] else Encoding(cs[0]) + EncodingAll(cs[1..])
  }

  ghost predicate Text(bs: Bytes) {
    exists cs: seq<Scalar> :: bs == EncodingAll(cs)
  }

  /** The scalar that the first `Width(bs)` bytes encode. */
  function ScalarOf(bs: Bytes): (c: Scalar)
    requires Width(bs) > 0
  {
    var x := bs[0] as nat;
    if Width(bs) == 1 then x
    else if Width(bs) == 2 then (x - 0xC0) * 64 + (bs[1] as nat - 0x80)
    else if Width(bs) == 3 then (x - 0xE0) * 4096 + (bs[1] as nat - 0x80) * 64 + (bs[2] as nat - 0x80)
    else (x - 0xF0) * 262144 + (bs[1] as nat - 0x80) * 4096 + (bs[2] as nat - 0x80) * 64 + (bs[3] as nat - 0x80)
  }

  lemma EncodingOfScalar(bs: Bytes)
    requires Width(bs) > 0
    ensures Encoding(ScalarOf(bs)) == bs[..Width(bs)]
  {
    if Width(bs) >= 2 {
      var x, y := bs[0] as nat, bs[1] as nat - 0x80;
      if Width(bs) == 2 {
        Sixths(0, 0, x - 0xC0, y);
      } else if Width(bs) == 3 {
        Sixths(0, x - 0xE0, y, bs[2] as nat - 0x80);
      } else {
        Sixths(x - 0xF0, y, bs[2] as nat - 0x80, bs[3] as nat - 0x80);
      }
    }
  }

  /** Digits to the base 64. */
  lemma Sixths(a: nat, b: nat, c: nat, d: nat)
    requires b < 64 && c < 64 && d < 64
    ensures var n := a * 262144 + b * 4096 + c * 64 + d;
            n / 262144 == a && n / 4096 == a * 64 + b && n / 4096 % 64 == b && n / 64 % 64 == c && n % 64 == d
            && n / 64 == (a * 64 + b) * 64 + c
  {
  }

  /** An encoding is recognised in front of anything, at its own length. */
  lemma WidthOfEncoding(c: Scalar, rest: Bytes)
    ensures Width(Encoding(c) + rest) == |Encoding(c)|
  {
  }

  lemma {:induction false} ValidHasScalars(bs: Bytes) returns (cs: seq<Scalar>)
    requires Valid(bs)
    ensures bs == EncodingAll(cs)
  {
    hide Width, Encoding, ScalarOf;
    if bs == [] {
      cs := [];
    } else {
      var n := Width(bs);
      var rest := ValidHasScalars(bs[n..]);
      EncodingOfScalar(bs);
      cs := [ScalarOf(bs)] + rest;
      assert cs[1..] == rest && bs == bs[..n] + bs[n..];
    }
  }

  lemma {:induction false} EncodingIsValid(cs: seq<Scalar>)
    ensures Valid(EncodingAll(cs))
  {
    hide Width, Encoding;
    if cs != [] {
      var first, rest := Encoding(cs[0]), EncodingAll(cs[1..]);
      EncodingIsValid(cs[1..]);
      WidthOfEncoding(cs[0], rest);
      assert (first + rest)[|first|..] == rest;
    }
  }

  /** The test accepts a byte string if and only if it encodes some sequence of scalars. */
  lemma ValidIsText(bs: Bytes)
    ensures Valid(bs) <==> Text(bs)
  {
    if Valid(bs) {
      var cs := ValidHasScalars(bs);
    }
    if Text(bs) {
      var cs :| bs == EncodingAll(cs);
      EncodingIsValid(cs);
    }
  }

  /** Different sequences have different encodings. */
  lemma {:induction false} EncodingIsInjective(a: seq<Scalar>, b: seq<Scalar>)
    requires EncodingAll(a) == EncodingAll(b)
    ensures a == b
  {
    hide Width, Encoding;
    if a != [] && b != [] {
      var x, y := Encoding(a[0]), Encoding(b[0]);
      var u, v := EncodingAll(a[1..]), EncodingAll(b[1..]);
      WidthOfEncoding(a[0], u);
      WidthOfEncoding(b[0], v);
      assert (x + u)[..|x|] == x && (y + v)[..|y|] == y && (x + u)[|x|..] == u && (y + v)[|y|..] == v;
      OneScalar(a[0], b[0]);
      EncodingIsInjective(a[1..], b[1..]);
    }
  }

  lemma OneScalar(c: Scalar, d: Scalar)
    requires Encoding(c) == Encoding(d)
    ensures c == d
  {
    Recompose(c);
    Recompose(d);
    var x, y := Encoding(c), Encoding(d);
    assert |x| == |y| && forall i :: 0 <= i < |x| ==> x[i] as nat == y[i] as nat;
  }

  lemma Recompose(n: nat)
    ensures n == n / 64 * 64 + n % 64 && n / 64 == n / 4096 * 64 + n / 64 % 64 && n / 4096 == n / 262144 * 64 + n / 4096 % 64
  {
  }
}

/**
 * What `new TextEncoder().encode(value)` produces: the UTF-8 encoding of a
 * JavaScript string, where a lone surrogate is first replaced by U+FFFD.
 * The password rules only use the length of that encoding.
 */
module Utf8 {
  import opened JsStrings

  type Byte = b: int | 0 <= b < 0x100

  /** The code point TextEncoder actually encodes: lone surrogates become U+FFFD. */
  function Scalar(c: CodePoint): CodePoint {
    if IsSurrogate(c) then 0xFFFD else c
  }

  /** Number of bytes the encoding of `c` takes. */
  function Width(c: CodePoint): (w: nat)
    ensures 1 <= w <= 4
    ensures w == 1 <==> c < 0x80
    ensures w == 2 <==> 0x80 <= c < 0x800
    ensures w == 4 <==> c >= 0x1_0000
  {
    if c < 0x80 then 1 else if c < 0x800 then 2 else if c < 0x1_0000 then 3 else 4
  }

  /** Width of an encoded sequence, read from its first byte. */
  function LeadWidth(b: Byte): nat {
    if b < 0x80 then 1 else if b < 0xE0 then 2 else if b < 0xF0 then 3 else 4
  }

  predicate IsContinuation(b: Byte) {
    0x80 <= b < 0xC0
  }

  /** The UTF-8 bytes of one code point. */
  function EncodeCodePoint(c: CodePoint): (r: seq<Byte>)
    ensures |r| == Width(c) == LeadWidth(r[0])
    ensures forall i :: 1 <= i < |r| ==> IsContinuation(r[i])
  {
    var u := Scalar(c);
    var q0 := u / 0x40;
    var q1 := q0 / 0x40;
    var q2 := q1 / 0x40;
    if u < 0x80 then [u]
    else if u < 0x800 then [0xC0 + q0, 0x80 + u % 0x40]
    else if u < 0x1_0000 then [0xE0 + q1, 0x80 + q0 % 0x40, 0x80 + u % 0x40]
    else [0xF0 + q2, 0x80 + q1 % 0x40, 0x80 + q0 % 0x40, 0x80 + u % 0x40]
  }

  /** Reads back the code point of one encoded sequence. */
  function DecodeOne(b: seq<Byte>): int
    requires 1 <= |b| <= 4
  {
    var p := seq(|b|, i requires 0 <= i < |b| => b[i] as int);
    if |b| == 1 then p[0]
    else if |b| == 2 then (p[0] - 0xC0) * 0x40 + (p[1] - 0x80)
    else if |b| == 3 then ((p[0] - 0xE0) * 0x40 + (p[1] - 0x80)) * 0x40 + (p[2] - 0x80)
    else (((p[0] - 0xF0) * 0x40 + (p[1] - 0x80)) * 0x40 + (p[2] - 0x80)) * 0x40 + (p[3] - 0x80)
  }

  lemma EncodeCodePointRoundTrip(c: CodePoint)
    ensures DecodeOne(EncodeCodePoint(c)) == Scalar(c)
  {
    var u := Scalar(c);
    var q0 := u / 0x40;
    var q1 := q0 / 0x40;
    var q2 := q1 / 0x40;
    assert u == q0 * 0x40 + u % 0x40;
    assert q0 == q1 * 0x40 + q0 % 0x40;
    assert q1 == q2 * 0x40 + q1 % 0x40;
  }

  /** `new TextEncoder().encode(s)`. */
  function Encode(s: JsString): (r: seq<Byte>)
    ensures |r| == ByteLength(s)
  {
    if s == [] then [] else EncodeCodePoint(s[0]) + Encode(s[1..])
  }

  /** Reads a well-formed encoding back, one sequence at a time. */
  function Decode(b: seq<Byte>): seq<int>
    decreases |b|
  {
    if b == [] then []
    else
      var w := LeadWidth(b[0]);
      if |b| < w then [] else [DecodeOne(b[..w])] + Decode(b[w..])
  }

  /** Encoding loses nothing but the lone surrogates, which come back as U+FFFD. */
  lemma {:induction false} EncodeRoundTrip(s: JsString)
    ensures Decode(Encode(s)) == seq(|s|, i requires 0 <= i < |s| => Scalar(s[i]))
  {
    if s != [] {
      var head := EncodeCodePoint(s[0]);
      var b := Encode(s);
      assert b == head + Encode(s[1..]);
      assert b[0] == head[0];
      assert b[..|head|] == head && b[|head|..] == Encode(s[1..]);
      EncodeCodePointRoundTrip(s[0]);
      EncodeRoundTrip(s[1..]);
    }
  }

  /** The byte count TextEncoder reports, summed code point by code point. */
  function ByteLength(s: JsString): (n: nat)
    ensures |s| <= n <= 4 * |s|
  {
    if s == [] then 0 else Width(s[0]) + ByteLength(s[1..])
  }

  lemma {:induction false} ByteLengthAppend(a: JsString, b: JsString)
    ensures ByteLength(a + b) == ByteLength(a) + ByteLength(b)
  {
    if a != [] {
      assert (a + b)[0] == a[0] && (a + b)[1..] == a[1..] + b;
      ByteLengthAppend(a[1..], b);
    } else {
      assert a + b == b;
    }
  }

  /** An ASCII string takes one byte per character. */
  lemma {:induction false} AsciiByteLength(s: JsString)
    requires forall i :: 0 <= i < |s| ==> s[i] < 0x80
    ensures ByteLength(s) == |s|
  {
    if s != [] {
      AsciiByteLength(s[1..]);
    }
  }

  /** Every code point from U+0080 to U+07FF (Latin accents, Greek, Cyrillic, Hebrew, Arabic) takes two bytes. */
  lemma {:induction false} TwoByteLength(s: JsString)
    requires forall i :: 0 <= i < |s| ==> 0x80 <= s[i] < 0x800
    ensures ByteLength(s) == 2 * |s|
  {
    if s != [] {
      TwoByteLength(s[1..]);
    }
  }
}

/**
 * JavaScript strings as the code points a `for..of` loop visits.
 *
 * Dafny's `char` cannot hold a surrogate, while a JavaScript string can hold a
 * lone one (a JSON body may carry "\ud800"). So a string here is a sequence of
 * integers below 0x110000; a value in 0xD800..0xDFFF stands for a lone
 * surrogate, a supplementary character is one code point. A high surrogate
 * directly followed by a low one therefore never occurs in a sequence that
 * stands for a JavaScript string: that pair is the single supplementary code
 * point it encodes.
 */
module JsStrings {

  type CodePoint = c: int | 0 <= c < 0x11_0000

  type JsString = seq<CodePoint>

  /** A Dafny string literal as a JavaScript string (the literals used here are all ASCII). */
  function Lit(s: string): (r: JsString)
    ensures |r| == |s|
    ensures forall i :: 0 <= i < |s| ==> r[i] == s[i] as int
  {
    seq(|s|, i requires 0 <= i < |s| => s[i] as int)
  }

  lemma LitInjective(a: string, b: string)
    requires Lit(a) == Lit(b)
    ensures a == b
  {
    assert |a| == |b|;
    forall i | 0 <= i < |a| ensures a[i] == b[i] {
      assert Lit(a)[i] == Lit(b)[i];
    }
  }

  predicate IsSurrogate(c: CodePoint) {
    0xD800 <= c <= 0xDFFF
  }

  predicate IsAsciiDigit(c: CodePoint) {
    '0' as int <= c <= '9' as int
  }

  /** The class `\s` of ECMAScript regular expressions: WhiteSpace and LineTerminator. */
  predicate IsJsWhitespace(c: CodePoint)
    ensures IsJsWhitespace(c) ==> !IsAsciiDigit(c) && c != '+' as int
  {
    || c == 0x09 || c == 0x0A || c == 0x0B || c == 0x0C || c == 0x0D || c == 0x20
    || c == 0xA0 || c == 0x1680 || (0x2000 <= c <= 0x200A)
    || c == 0x2028 || c == 0x2029 || c == 0x202F || c == 0x205F || c == 0x3000 || c == 0xFEFF
  }

  /** `String.prototype.toLowerCase` on one code point, restricted to the ASCII letters. */
  function LowerCodePoint(c: CodePoint): (r: CodePoint)
    ensures 'A' as int <= c <= 'Z' as int ==> r == c + 32
    ensures !('A' as int <= c <= 'Z' as int) ==> r == c
    ensures !('A' as int <= r <= 'Z' as int)
  {
    if 'A' as int <= c <= 'Z' as int then c + 32 else c
  }

  /** `String.prototype.toLowerCase`, ASCII letters only. */
  function Lower(s: JsString): (r: JsString)
    ensures |r| == |s|
    ensures forall i :: 0 <= i < |s| ==> r[i] == LowerCodePoint(s[i])
  {
    seq(|s|, i requires 0 <= i < |s| => LowerCodePoint(s[i]))
  }

  /** Lowercasing twice changes nothing more than lowercasing once. */
  lemma LowerIdempotent(s: JsString)
    ensures Lower(Lower(s)) == Lower(s)
  {
    forall i | 0 <= i < |s| ensures Lower(Lower(s))[i] == Lower(s)[i] {
      assert Lower(s)[i] == LowerCodePoint(s[i]);
    }
  }

  /** `Array.prototype.join(sep)` on an array of strings. */
  function Join(parts: seq<JsString>, sep: JsString): (r: JsString)
    ensures |parts| == 1 ==> r == parts[0]
    ensures parts == [] ==> r == []
    ensures parts != [] ==> parts[0] <= r
    ensures |parts| >= 2 ==> parts[0] + sep <= r
  {
    if parts == [] then []
    else if |parts| == 1 then parts[0]
    else parts[0] + sep + Join(parts[1..], sep)
  }

  /** `join` read as a left fold: appending a part appends the separator and that part. */
  lemma {:induction false} JoinSnoc(parts: seq<JsString>, p: JsString, sep: JsString)
    requires parts != []
    ensures Join(parts + [p], sep) == Join(parts, sep) + sep + p
  {
    if |parts| == 1 {
      assert parts + [p] == [parts[0], p];
    } else {
      var whole := parts + [p];
      assert whole[0] == parts[0] && whole[1..] == parts[1..] + [p];
      JoinSnoc(parts[1..], p, sep);
      calc {
        Join(whole, sep);
        parts[0] + sep + Join(parts[1..] + [p], sep);
        parts[0] + sep + (Join(parts[1..], sep) + sep + p);
        (parts[0] + sep + Join(parts[1..], sep)) + sep + p;
      }
    }
  }
}

/** The storage keys of pending request ids, as strings. */
module Keys {

  datatype Kind = Inbound | Create | Repair

  // ---------------------------------------------------------------------------------------
  // encodeURIComponent
  // ---------------------------------------------------------------------------------------

  predicate Unreserved(c: char) {
    || 'A' <= c <= 'Z' || 'a' <= c <= 'z' || '0' <= c <= '9'
    || c in "-_.!~*'()"
  }

  function HexDigit(n: int): (c: char)
    requires 0 <= n < 16
    ensures HexValue(c) == n
  {
    if n < 10 then '0' + n as char else 'A' + (n - 10) as char
  }

  function HexValue(c: char): int {
    if '0' <= c <= '9' then c as int - '0' as int else c as int - 'A' as int + 10
  }

  /** `%XY` for one byte. */
  function Percent(b: int): string
    requires 0 <= b < 256
  {
    ['%', HexDigit(b / 16), HexDigit(b % 16)]
  }

  /** The UTF-8 bytes of a code point, percent-encoded. */
  function PercentEncoded(p: int): string
    requires 0 <= p < 0x110000
  {
    if p < 0x80 then Percent(p)
    else if p < 0x800 then Percent(0xC0 + p / 64) + Percent(0x80 + p % 64)
    else if p < 0x10000 then Percent(0xE0 + p / 4096) + Percent(0x80 + p / 64 % 64) + Percent(0x80 + p % 64)
    else
      Percent(0xF0 + p / 262144) + Percent(0x80 + p / 4096 % 64) + Percent(0x80 + p / 64 % 64)
      + Percent(0x80 + p % 64)
  }

  function EncodeChar(c: char): string {
    if Unreserved(c) then [c] else PercentEncoded(c as int)
  }

  function Encode(s: string): string {
    if s == "" then "" else EncodeChar(s[0]) + Encode(s[1..])
  }

  // ---------------------------------------------------------------------------------------
  // What is written
  // ---------------------------------------------------------------------------------------

  /** The bytes are the UTF-8 form of the code point: section 3 of RFC 3629. */
  predicate Utf8(p: int, bytes: seq<int>) {
    if |bytes| == 1 then bytes[0] == p && 0 <= p <= 0x7F
    else if |bytes| == 2 then
      && 0x80 <= p <= 0x7FF && 0xC0 <= bytes[0] < 0xE0 && Follows(bytes[1])
      && p == (bytes[0] - 0xC0) * 0x40 + (bytes[1] - 0x80)
    else if |bytes| == 3 then
      && 0x800 <= p <= 0xFFFF && 0xE0 <= bytes[0] < 0xF0 && Follows(bytes[1]) && Follows(bytes[2])
      && p == (bytes[0] - 0xE0) * 0x1000 + (bytes[1] - 0x80) * 0x40 + (bytes[2] - 0x80)
    else
      && |bytes| == 4 && 0x10000 <= p <= 0x10FFFF && 0xF0 <= bytes[0] < 0xF8
      && Follows(bytes[1]) && Follows(bytes[2]) && Follows(bytes[3])
      && p == (bytes[0] - 0xF0) * 0x40000 + (bytes[1] - 0x80) * 0x1000 + (bytes[2] - 0x80) * 0x40 + (bytes[3] - 0x80)
  }

  predicate Follows(b: int) { 0x80 <= b < 0xC0 }

  /** A percent sign and two hexadecimal digits, in capitals, for each byte. */
  predicate Escapes(text: string, bytes: seq<int>) {
    && |text| == 3 * |bytes|
    && forall k :: 0 <= k < |bytes| ==>
         && text[3 * k] == '%' && IsHex(text[3 * k + 1]) && IsHex(text[3 * k + 2])
         && bytes[k] == 16 * HexValue(text[3 * k + 1]) + HexValue(text[3 * k + 2])
  }

  predicate IsHex(c: char) { '0' <= c <= '9' || 'A' <= c <= 'F' }

  lemma PercentEscapes(b: int)
    requires 0 <= b < 256
    ensures Escapes(Percent(b), [b])
  {
  }

  lemma EscapesAppend(x: string, a: seq<int>, y: string, b: seq<int>)
    requires Escapes(x, a) && Escapes(y, b)
    ensures Escapes(x + y, a + b)
  {
    hide IsHex, HexValue;
    forall k | 0 <= k < |a + b|
      ensures var t := x + y;
              && t[3 * k] == '%' && IsHex(t[3 * k + 1]) && IsHex(t[3 * k + 2])
              && (a + b)[k] == 16 * HexValue(t[3 * k + 1]) + HexValue(t[3 * k + 2])
    {
      if k >= |a| {
        var j := k - |a|;
        assert (a + b)[k] == b[j] && (x + y)[3 * k] == y[3 * j];
        assert (x + y)[3 * k + 1] == y[3 * j + 1] && (x + y)[3 * k + 2] == y[3 * j + 2];
      }
    }
  }

  /** The bytes of a code point. */
  function BytesOf(p: int): seq<int>
    requires 0 <= p < 0x110000
  {
    if p < 0x80 then [p]
    else if p < 0x800 then [0xC0 + p / 64, 0x80 + p % 64]
    else if p < 0x10000 then [0xE0 + p / 4096, 0x80 + p / 64 % 64, 0x80 + p % 64]
    else [0xF0 + p / 262144, 0x80 + p / 4096 % 64, 0x80 + p / 64 % 64, 0x80 + p % 64]
  }

  /** A character stands for itself if it is a letter, a digit or one of nine marks; any other one is its UTF-8 bytes
      with percent signs. */
  lemma EncodedIsUtf8(c: char) returns (bytes: seq<int>)
    ensures 'A' <= c <= 'Z' || 'a' <= c <= 'z' || '0' <= c <= '9' || c in ['-', '_', '.', '!', '~', '*', '\'', '(', ')']
            <==> EncodeChar(c) == [c]
    ensures EncodeChar(c) != [c] ==> Utf8(c as int, bytes) && Escapes(EncodeChar(c), bytes)
  {
    bytes := BytesOf(c as int);
    BytesAreUtf8(c as int);
    EncodedEscapes(c as int);
    hide Utf8, Escapes, PercentEncoded, BytesOf;
    PercentEncodedStarts(c as int);
  }

  lemma BytesAreUtf8(p: int)
    requires 0 <= p < 0x110000
    ensures Utf8(p, BytesOf(p))
  {
    Digits(p);
    if p < 0x80 {
      assert BytesOf(p) == [p];
    } else if p < 0x800 {
      assert BytesOf(p) == [0xC0 + p / 64, 0x80 + p % 64];
    } else if p < 0x10000 {
      assert BytesOf(p) == [0xE0 + p / 4096, 0x80 + p / 64 % 64, 0x80 + p % 64];
    } else {
      assert BytesOf(p) == [0xF0 + p / 262144, 0x80 + p / 4096 % 64, 0x80 + p / 64 % 64, 0x80 + p % 64];
    }
  }

  lemma EscapesTwo(a: int, b: int)
    requires 0 <= a < 256 && 0 <= b < 256
    ensures Escapes(Percent(a) + Percent(b), [a, b])
  {
    hide Percent, Escapes;
    PercentEscapes(a);
    PercentEscapes(b);
    EscapesAppend(Percent(a), [a], Percent(b), [b]);
    assert [a] + [b] == [a, b];
  }

  lemma EscapesThree(a: int, b: int, c: int)
    requires 0 <= a < 256 && 0 <= b < 256 && 0 <= c < 256
    ensures Escapes(Percent(a) + Percent(b) + Percent(c), [a, b, c])
  {
    hide Percent, Escapes;
    EscapesTwo(a, b);
    PercentEscapes(c);
    EscapesAppend(Percent(a) + Percent(b), [a, b], Percent(c), [c]);
    assert [a, b] + [c] == [a, b, c];
  }

  lemma EscapesFour(a: int, b: int, c: int, d: int)
    requires 0 <= a < 256 && 0 <= b < 256 && 0 <= c < 256 && 0 <= d < 256
    ensures Escapes(Percent(a) + Percent(b) + Percent(c) + Percent(d), [a, b, c, d])
  {
    hide Percent, Escapes;
    EscapesThree(a, b, c);
    PercentEscapes(d);
    EscapesAppend(Percent(a) + Percent(b) + Percent(c), [a, b, c], Percent(d), [d]);
    assert [a, b, c] + [d] == [a, b, c, d];
  }

  lemma EncodedEscapes(p: int)
    requires 0 <= p < 0x110000
    ensures Escapes(PercentEncoded(p), BytesOf(p))
  {
    hide Percent, Escapes;
    if p < 0x80 {
      PercentEscapes(p);
    } else if p < 0x800 {
      EscapesTwo(0xC0 + p / 64, 0x80 + p % 64);
    } else if p < 0x10000 {
      EscapesThree(0xE0 + p / 4096, 0x80 + p / 64 % 64, 0x80 + p % 64);
    } else {
      EscapesFour(0xF0 + p / 262144, 0x80 + p / 4096 % 64, 0x80 + p / 64 % 64, 0x80 + p % 64);
    }
  }

  /** A text is written character by character. */
  lemma {:induction false} EncodeAppends(s: string, t: string)
    ensures Encode(s + t) == Encode(s) + Encode(t)
  {
    hide EncodeChar;
    if s == "" {
      assert s + t == t;
    } else {
      assert (s + t)[1..] == s[1..] + t;
      EncodeAppends(s[1..], t);
    }
  }

  // ---------------------------------------------------------------------------------------
  // Injectivity
  // ---------------------------------------------------------------------------------------

  lemma PercentIsInjective(a: int, b: int, x: string, y: string)
    requires 0 <= a < 256 && 0 <= b < 256 && Percent(a) + x == Percent(b) + y
    ensures a == b && x == y
  {
    assert (Percent(a) + x)[1] == HexDigit(a / 16) && (Percent(b) + y)[1] == HexDigit(b / 16);
    assert (Percent(a) + x)[2] == HexDigit(a % 16) && (Percent(b) + y)[2] == HexDigit(b % 16);
    assert (Percent(a) + x)[3..] == x && (Percent(b) + y)[3..] == y;
  }

  /** The leading byte tells how many follow. */
  function Lead(p: int): (b: int)
    requires 0 <= p < 0x110000
    ensures 0 <= b < 256
  {
    if p < 0x80 then p
    else if p < 0x800 then 0xC0 + p / 64
    else if p < 0x10000 then 0xE0 + p / 4096
    else 0xF0 + p / 262144
  }

  function Trail(p: int): string
    requires 0 <= p < 0x110000
  {
    if p < 0x80 then ""
    else if p < 0x800 then Percent(0x80 + p % 64)
    else if p < 0x10000 then Percent(0x80 + p / 64 % 64) + Percent(0x80 + p % 64)
    else Percent(0x80 + p / 4096 % 64) + (Percent(0x80 + p / 64 % 64) + Percent(0x80 + p % 64))
  }

  lemma Split(p: int)
    requires 0 <= p < 0x110000
    ensures PercentEncoded(p) == Percent(Lead(p)) + Trail(p)
  {
  }

  lemma Digits(p: int)
    requires 0 <= p
    ensures p == 64 * (p / 64) + p % 64
    ensures p / 64 == 64 * (p / 4096) + p / 64 % 64
    ensures p / 4096 == 64 * (p / 262144) + p / 4096 % 64
  {
  }

  lemma TwoTrailing(a1: int, a2: int, b1: int, b2: int, x: string, y: string)
    requires 0 <= a1 < 128 && 0 <= a2 < 128 && 0 <= b1 < 128 && 0 <= b2 < 128
    requires Percent(0x80 + a1) + Percent(0x80 + a2) + x == Percent(0x80 + b1) + Percent(0x80 + b2) + y
    ensures a1 == b1 && a2 == b2 && x == y
  {
    var p, q := Percent(0x80 + a2) + x, Percent(0x80 + b2) + y;
    assert Percent(0x80 + a1) + Percent(0x80 + a2) + x == Percent(0x80 + a1) + p;
    assert Percent(0x80 + b1) + Percent(0x80 + b2) + y == Percent(0x80 + b1) + q;
    PercentIsInjective(0x80 + a1, 0x80 + b1, p, q);
    PercentIsInjective(0x80 + a2, 0x80 + b2, x, y);
  }

  lemma ThreeTrailing(a1: int, a2: int, a3: int, b1: int, b2: int, b3: int, x: string, y: string)
    requires 0 <= a1 < 128 && 0 <= a2 < 128 && 0 <= a3 < 128 && 0 <= b1 < 128 && 0 <= b2 < 128 && 0 <= b3 < 128
    requires Percent(0x80 + a1) + (Percent(0x80 + a2) + Percent(0x80 + a3)) + x
             == Percent(0x80 + b1) + (Percent(0x80 + b2) + Percent(0x80 + b3)) + y
    ensures a1 == b1 && a2 == b2 && a3 == b3 && x == y
  {
    hide Percent;
    var p, q := Percent(0x80 + a2) + Percent(0x80 + a3) + x, Percent(0x80 + b2) + Percent(0x80 + b3) + y;
    assert Percent(0x80 + a1) + (Percent(0x80 + a2) + Percent(0x80 + a3)) + x == Percent(0x80 + a1) + p;
    assert Percent(0x80 + b1) + (Percent(0x80 + b2) + Percent(0x80 + b3)) + y == Percent(0x80 + b1) + q;
    PercentIsInjective(0x80 + a1, 0x80 + b1, p, q);
    TwoTrailing(a2, a3, b2, b3, x, y);
  }

  /** Equal leading bytes mean the same length, and then equal trailing bytes the same code point. */
  lemma SameLength(p: int, q: int)
    requires 0 <= p < 0x110000 && 0 <= q < 0x110000 && Lead(p) == Lead(q)
    ensures (p < 0x80 <==> q < 0x80) && (p < 0x800 <==> q < 0x800) && (p < 0x10000 <==> q < 0x10000)
  {
  }

  lemma SameDigits(p: int, q: int)
    requires 0 <= p < 0x110000 && 0 <= q < 0x110000 && Lead(p) == Lead(q)
    requires p >= 0x80 ==> p % 64 == q % 64
    requires p >= 0x800 ==> p / 64 % 64 == q / 64 % 64
    requires p >= 0x10000 ==> p / 4096 % 64 == q / 4096 % 64
    ensures p == q
  {
    SameLength(p, q);
    Digits(p);
    Digits(q);
  }

  lemma TrailDigits(p: int, q: int, x: string, y: string)
    requires 0 <= p < 0x110000 && 0 <= q < 0x110000 && Trail(p) + x == Trail(q) + y
    requires (p < 0x80 <==> q < 0x80) && (p < 0x800 <==> q < 0x800) && (p < 0x10000 <==> q < 0x10000)
    ensures p >= 0x80 ==> p % 64 == q % 64
    ensures p >= 0x800 ==> p / 64 % 64 == q / 64 % 64
    ensures p >= 0x10000 ==> p / 4096 % 64 == q / 4096 % 64
    ensures x == y
  {
    hide Percent;
    if p < 0x80 {
      assert Trail(p) + x == x && Trail(q) + y == y;
    } else if p < 0x800 {
      PercentIsInjective(0x80 + p % 64, 0x80 + q % 64, x, y);
    } else if p < 0x10000 {
      TwoTrailing(p / 64 % 64, p % 64, q / 64 % 64, q % 64, x, y);
    } else {
      ThreeTrailing(p / 4096 % 64, p / 64 % 64, p % 64, q / 4096 % 64, q / 64 % 64, q % 64, x, y);
    }
  }

  lemma Regroup(a: string, b: string, x: string)
    ensures a + b + x == a + (b + x)
  {
  }

  lemma PercentEncodedIsPrefixFree(p: int, q: int, x: string, y: string)
    requires 0 <= p < 0x110000 && 0 <= q < 0x110000 && PercentEncoded(p) + x == PercentEncoded(q) + y
    ensures p == q && x == y
  {
    Split(p);
    Split(q);
    hide Percent, PercentEncoded, Trail, Lead;
    Regroup(Percent(Lead(p)), Trail(p), x);
    Regroup(Percent(Lead(q)), Trail(q), y);
    PercentIsInjective(Lead(p), Lead(q), Trail(p) + x, Trail(q) + y);
    SameLength(p, q);
    TrailDigits(p, q, x, y);
    SameDigits(p, q);
  }

  lemma PercentEncodedStarts(p: int)
    requires 0 <= p < 0x110000
    ensures |PercentEncoded(p)| > 0 && PercentEncoded(p)[0] == '%'
  {
  }

  /** No encoded character is a prefix of another's encoding. */
  lemma EncodeCharIsPrefixFree(a: char, b: char, x: string, y: string)
    requires EncodeChar(a) + x == EncodeChar(b) + y
    ensures a == b && x == y
  {
    PercentEncodedStarts(a as int);
    PercentEncodedStarts(b as int);
    hide PercentEncoded;
    assert (EncodeChar(a) + x)[0] == EncodeChar(a)[0] && (EncodeChar(b) + y)[0] == EncodeChar(b)[0];
    if Unreserved(a) {
      assert ([a] + x)[1..] == x && ([b] + y)[1..] == y;
    } else {
      PercentEncodedIsPrefixFree(a as int, b as int, x, y);
    }
  }

  lemma {:induction false} EncodeIsInjective(s: string, t: string)
    requires Encode(s) == Encode(t)
    ensures s == t
  {
    if s != "" && t != "" {
      EncodeCharIsPrefixFree(s[0], t[0], Encode(s[1..]), Encode(t[1..]));
      EncodeIsInjective(s[1..], t[1..]);
      assert s == [s[0]] + s[1..] && t == [t[0]] + t[1..];
    }
  }

  // ---------------------------------------------------------------------------------------
  // Keys
  // ---------------------------------------------------------------------------------------

  const NO_TENANT := "no-tenant"

  function Suffix(kind: Kind): string {
    match kind
    case Inbound => ".inbound"
    case Create => ".outbound.create"
    case Repair => ".outbound.repair"
  }

  /** `slug` is the stored company, "" when there is none. */
  function PendingKey(kind: Kind, slug: string): string {
    "warehouse.pending." + Encode(if slug == "" then NO_TENANT else slug) + Suffix(kind)
  }

  /** Slugs that share their keys: the missing company and one literally named "no-tenant". */
  predicate SameTenant(a: string, b: string) {
    a == b || (a in {"", NO_TENANT} && b in {"", NO_TENANT})
  }

  lemma SuffixesDiffer(kind: Kind, other: Kind, x: string, y: string)
    requires x + Suffix(kind) == y + Suffix(other)
    ensures kind == other && x == y
  {
    var s, t := x + Suffix(kind), y + Suffix(other);
    assert s[|s| - 1] == Suffix(kind)[|Suffix(kind)| - 1] && t[|t| - 1] == Suffix(other)[|Suffix(other)| - 1];
    assert kind == other by {
      assert ".inbound"[7] == 'd' && ".outbound.create"[15] == 'e' && ".outbound.repair"[15] == 'r';
    }
    assert s[..|x|] == x && t[..|y|] == y;
  }

  /** The keys of two forms are the same exactly when the forms are of one kind and their companies share a key. */
  lemma KeysAgreeIff(kind: Kind, other: Kind, a: string, b: string)
    ensures PendingKey(kind, a) == PendingKey(other, b) <==> kind == other && SameTenant(a, b)
  {
    var x, y := if a == "" then NO_TENANT else a, if b == "" then NO_TENANT else b;
    if PendingKey(kind, a) == PendingKey(other, b) {
      var p := "warehouse.pending.";
      SuffixesDiffer(kind, other, p + Encode(x), p + Encode(y));
      assert (p + Encode(x))[|p|..] == Encode(x) && (p + Encode(y))[|p|..] == Encode(y);
      EncodeIsInjective(x, y);
    }
  }
}

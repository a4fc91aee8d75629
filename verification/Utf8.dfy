/** Go strings as bytes, and how their code points are read: UTF-8 as in section 3 of
    RFC 3629, with every ill-formed byte read on its own. */
module Utf8 {

  type Byte = b: int | 0 <= b < 256

  type Bytes = seq<Byte>

  predicate Continues(b: Byte) { 0x80 <= b <= 0xBF }

  predicate Between(low: int, b: Byte, high: int) { low <= b <= high }

  /** A well-formed sequence of two, three or four bytes starts the text. */
  predicate Two(s: Bytes) {
    |s| >= 2 && Between(0xC2, s[0], 0xDF) && Continues(s[1])
  }

  predicate Three(s: Bytes) {
    && |s| >= 3 && Continues(s[1]) && Continues(s[2])
    && (s[0] == 0xE0 ==> s[1] >= 0xA0) && (s[0] == 0xED ==> s[1] <= 0x9F) && Between(0xE0, s[0], 0xEF)
  }

  predicate Four(s: Bytes) {
    && |s| >= 4 && Continues(s[1]) && Continues(s[2]) && Continues(s[3])
    && (s[0] == 0xF0 ==> s[1] >= 0x90) && (s[0] == 0xF4 ==> s[1] <= 0x8F) && Between(0xF0, s[0], 0xF4)
  }

  /** The bytes of the first code point; anything ill-formed is one byte. */
  function Width(s: Bytes): (w: nat)
    requires s != []
    ensures 1 <= w <= 4 && w <= |s|
    ensures forall i :: 1 <= i < w ==> Continues(s[i])
  {
    if Two(s) then 2 else if Three(s) then 3 else if Four(s) then 4 else 1
  }

  /** Decoding from a stops at b. */
  predicate Reaches(text: Bytes, a: nat, b: nat)
    requires a <= |text| && b <= |text|
    decreases |text| - a
  {
    a == b || (a < b && a + Width(text[a..]) <= b && Reaches(text, a + Width(text[a..]), b))
  }

  /** No code point spans a byte that is not a continuation byte. */
  lemma {:induction false} StartsAreReached(text: Bytes, a: nat, b: nat)
    requires a <= b <= |text| && (b < |text| ==> !Continues(text[b]))
    ensures Reaches(text, a, b)
    decreases b - a
  {
    if a < b {
      var w := Width(text[a..]);
      assert a + w <= b;
      StartsAreReached(text, a + w, b);
    }
  }

  /** Cutting the text behind a code point does not change how it is read. */
  lemma WidthOfPrefix(s: Bytes, n: nat)
    requires s != [] && Width(s) <= n <= |s|
    ensures n > 0 && Width(s[..n]) == Width(s)
  {
  }

  /** The first byte starts a well-formed code point. */
  predicate WellFormed(s: Bytes) {
    s != [] && (s[0] < 0x80 || Two(s) || Three(s) || Four(s))
  }

  predicate ValidUtf8(s: Bytes) {
    s == [] || (WellFormed(s) && ValidUtf8(s[Width(s)..]))
  }

  function RuneCount(s: Bytes): nat {
    if s == [] then 0 else 1 + RuneCount(s[Width(s)..])
  }

  // ---- the encoding these rules read ---------------------------------------------------------

  /** A Unicode scalar value: no surrogate, nothing above U+10FFFF. */
  type CodePoint = c: int | 0 <= c <= 0x10FFFF && !(0xD800 <= c <= 0xDFFF)

  /** Six bits in a continuation byte. */
  function Tail(c: nat): Byte { 0x80 + c % 64 }

  /** The bytes of a code point, by the table in section 3 of RFC 3629. */
  function BytesOf(c: CodePoint): (s: Bytes)
    ensures |s| == if c < 0x80 then 1 else if c < 0x800 then 2 else if c < 0x1_0000 then 3 else 4
  {
    if c < 0x80 then [c]
    else if c < 0x800 then [0xC0 + c / 64, Tail(c)]
    else if c < 0x1_0000 then [0xE0 + c / 4096, Tail(c / 64), Tail(c)]
    else [0xF0 + c / 262144, Tail(c / 4096), Tail(c / 64), Tail(c)]
  }

  /** Each code point is read back as one well-formed code point of its own width. */
  lemma ReadsOne(c: CodePoint, rest: Bytes)
    ensures WellFormed(BytesOf(c) + rest) && Width(BytesOf(c) + rest) == |BytesOf(c)|
  {
  }

  /** The code point of two, three or four well-formed bytes. */
  function PointOfTwo(s: Bytes): (c: CodePoint)
    requires Two(s)
    ensures BytesOf(c) == s[..2]
  {
    (s[0] as int - 0xC0) * 64 + (s[1] as int - 0x80)
  }

  lemma FourParts(a: nat, b: nat, c: nat, d: nat)
    requires b < 64 && c < 64 && d < 64
    ensures var n := a * 262144 + b * 4096 + c * 64 + d;
            && n / 262144 == a && n / 4096 == a * 64 + b && n / 64 == a * 4096 + b * 64 + c
            && n % 64 == d && (n / 64) % 64 == c && (n / 4096) % 64 == b
  {
  }

  function PointOfThree(s: Bytes): (c: CodePoint)
    requires Three(s)
    ensures BytesOf(c) == s[..3]
  {
    FourParts(0, s[0] as int - 0xE0, s[1] as int - 0x80, s[2] as int - 0x80);
    (s[0] as int - 0xE0) * 4096 + (s[1] as int - 0x80) * 64 + (s[2] as int - 0x80)
  }

  function PointOfFour(s: Bytes): (c: CodePoint)
    requires Four(s)
    ensures BytesOf(c) == s[..4]
  {
    FourParts(s[0] as int - 0xF0, s[1] as int - 0x80, s[2] as int - 0x80, s[3] as int - 0x80);
    (s[0] as int - 0xF0) * 262144 + (s[1] as int - 0x80) * 4096 + (s[2] as int - 0x80) * 64 + (s[3] as int - 0x80)
  }

  /** The code point whose bytes start a text. */
  function PointOf(s: Bytes): (c: CodePoint)
    requires WellFormed(s)
    ensures BytesOf(c) == s[..Width(s)]
  {
    if Two(s) then PointOfTwo(s)
    else if Three(s) then PointOfThree(s)
    else if Four(s) then PointOfFour(s)
    else s[0]
  }

  function TextOf(points: seq<CodePoint>): Bytes {
    if points == [] then [] else BytesOf(points[0]) + TextOf(points[1..])
  }

  /** The code points of a well-formed text. */
  function PointsOf(s: Bytes): (points: seq<CodePoint>)
    requires ValidUtf8(s)
  {
    if s == [] then [] else [PointOf(s)] + PointsOf(s[Width(s)..])
  }

  /** A text is well formed exactly when it is the encoding of some code points. */
  lemma ValidExactly(s: Bytes)
    ensures ValidUtf8(s) <==> exists points :: TextOf(points) == s
  {
    if ValidUtf8(s) {
      TextOfPoints(s);
      assert TextOf(PointsOf(s)) == s;
    }
    forall points | TextOf(points) == s
      ensures ValidUtf8(s)
    {
      TextIsValid(points);
    }
  }

  lemma {:induction false} TextOfPoints(s: Bytes)
    requires ValidUtf8(s)
    ensures TextOf(PointsOf(s)) == s
  {
    hide BytesOf, PointOf, Width, WellFormed, TextOf;
    if s != [] {
      var rest := s[Width(s)..];
      TextOfPoints(rest);
      TextOfMore(PointOf(s), PointsOf(rest));
      assert s == s[..Width(s)] + rest;
    } else {
      NoText();
    }
  }

  lemma TextOfMore(c: CodePoint, points: seq<CodePoint>)
    ensures TextOf([c] + points) == BytesOf(c) + TextOf(points)
  {
    hide BytesOf;
    assert ([c] + points)[1..] == points;
  }

  lemma NoText()
    ensures TextOf([]) == []
  {
  }

  /** Reading an encoded text gives well-formed code points, as many as were encoded. */
  lemma {:induction false} TextIsValid(points: seq<CodePoint>)
    ensures ValidUtf8(TextOf(points)) && RuneCount(TextOf(points)) == |points|
  {
    hide BytesOf, Width, WellFormed;
    if points != [] {
      var rest := TextOf(points[1..]);
      ReadsOne(points[0], rest);
      TextIsValid(points[1..]);
      assert TextOf(points)[|BytesOf(points[0])|..] == rest;
    }
  }

  method ValidString(s: Bytes) returns (valid: bool)
    ensures valid == ValidUtf8(s)
  {
    var i := 0;
    while i < |s|
      invariant 0 <= i <= |s| && ValidUtf8(s[i..]) == ValidUtf8(s)
    {
      if !WellFormed(s[i..]) {
        return false;
      }
      assert s[i..][Width(s[i..])..] == s[i + Width(s[i..])..];
      i := i + Width(s[i..]);
    }
    valid := true;
  }

  method RuneCountInString(s: Bytes) returns (count: nat)
    ensures count == RuneCount(s)
  {
    count := 0;
    var i := 0;
    while i < |s|
      invariant 0 <= i <= |s| && count + RuneCount(s[i..]) == RuneCount(s)
    {
      assert s[i..][Width(s[i..])..] == s[i + Width(s[i..])..];
      count, i := count + 1, i + Width(s[i..]);
    }
  }
}

/** `encodeURIComponent`: percent-encoding (section 2.1 of RFC 3986) of the
    UTF-8 bytes of every code point outside the characters ECMAScript leaves
    unescaped, with upper-case hexadecimal digits. */
module UriEncoding {

  /** The characters `encodeURIComponent` leaves as they are:
      letters, digits and `- _ . ! ~ * ' ( )`. */
  predicate IsUnescaped(c: char) {
    || ('A' <= c <= 'Z') || ('a' <= c <= 'z') || ('0' <= c <= '9')
    || c == '-' || c == '_' || c == '.' || c == '!' || c == '~' || c == '*'
    || c == '\'' || c == '(' || c == ')'
  }

  /** The number of bytes of a UTF-8 sequence, read from its lead byte. */
  function SequenceLength(lead: int): nat {
    if lead < 0x80 then 1 else if lead < 0xE0 then 2 else if lead < 0xF0 then 3 else 4
  }

  /** The UTF-8 encoding of one code point. */
  function Utf8(c: char): (bytes: seq<int>)
    ensures 1 <= |bytes| <= 4 && |bytes| == SequenceLength(bytes[0])
    ensures forall i :: 0 <= i < |bytes| ==> 0 <= bytes[i] < 256
  {
    var n := c as int;
    if n < 0x80 then [n]
    else if n < 0x800 then [0xC0 + n / 64, 0x80 + n % 64]
    else if n < 0x10000 then [0xE0 + n / 4096, 0x80 + (n / 64) % 64, 0x80 + n % 64]
    else [0xF0 + n / 0x40000, 0x80 + (n / 4096) % 64, 0x80 + (n / 64) % 64, 0x80 + n % 64]
  }

  /** A number is fixed by its quotient and remainder. */
  lemma SameQuotientAndRemainder(m: int, n: int, k: int)
    requires k > 0 && m / k == n / k && m % k == n % k
    ensures m == n
  {
  }

  /** Dividing by 64 twice is dividing by 4096; and again, by 0x40000. */
  lemma DivideBy64Twice(n: nat)
    ensures (n / 64) / 64 == n / 4096 && (n / 4096) / 64 == n / 0x40000
  {
  }

  /** Different code points have different UTF-8 encodings. */
  lemma Utf8Injective(c: char, d: char)
    requires Utf8(c) == Utf8(d)
    ensures c == d
  {
    var m, n := c as int, d as int;
    DivideBy64Twice(m);
    DivideBy64Twice(n);
    if m < 0x80 {
    } else if m < 0x800 {
      SameQuotientAndRemainder(m, n, 64);
    } else if m < 0x10000 {
      SameQuotientAndRemainder(m / 64, n / 64, 64);
      SameQuotientAndRemainder(m, n, 64);
    } else {
      SameQuotientAndRemainder(m / 4096, n / 4096, 64);
      SameQuotientAndRemainder(m / 64, n / 64, 64);
      SameQuotientAndRemainder(m, n, 64);
    }
  }

  /** An upper-case hexadecimal digit. */
  function HexDigit(d: int): (c: char)
    requires 0 <= d < 16
    ensures IsUnescaped(c)
  {
    if d < 10 then ('0' as int + d) as char else ('A' as int + d - 10) as char
  }

  /** `%XY` for one byte. */
  function PercentByte(b: int): (r: string)
    requires 0 <= b < 256
    ensures |r| == 3 && r[0] == '%' && IsUnescaped(r[1]) && IsUnescaped(r[2])
  {
    ['%', HexDigit(b / 16), HexDigit(b % 16)]
  }

  /** The byte a `%XY` triplet stands for can be read back from it. */
  lemma PercentByteInjective(a: int, b: int)
    requires 0 <= a < 256 && 0 <= b < 256
    requires PercentByte(a) == PercentByte(b)
    ensures a == b
  {
    assert HexDigit(a / 16) == HexDigit(b / 16);
    assert HexDigit(a % 16) == HexDigit(b % 16);
  }

  /** Percent-encode a byte sequence. */
  function PercentBytes(bytes: seq<int>): (r: string)
    requires forall i :: 0 <= i < |bytes| ==> 0 <= bytes[i] < 256
    ensures |r| == 3 * |bytes|
    ensures forall i :: 0 <= i < |bytes| ==> r[3 * i..3 * i + 3] == PercentByte(bytes[i])
    ensures forall i :: 0 <= i < |r| ==> IsUnescaped(r[i]) || r[i] == '%'
  {
    if bytes == [] then []
    else
      var head, tail := PercentByte(bytes[0]), PercentBytes(bytes[1..]);
      var r := head + tail;
      assert r[0..3] == head;
      assert forall i :: 1 <= i < |bytes| ==> r[3 * i..3 * i + 3] == tail[3 * i - 3..3 * i];
      r
  }

  /** The escaped form of one code point. */
  function EncodeChar(c: char): (r: string)
    ensures IsUnescaped(c) ==> r == [c]
    ensures !IsUnescaped(c) ==> r == PercentBytes(Utf8(c)) && r[0] == '%'
    ensures forall i :: 0 <= i < |r| ==> IsUnescaped(r[i]) || r[i] == '%'
  {
    if IsUnescaped(c) then [c]
    else
      PercentBytes(Utf8(c))
  }

  /** `encodeURIComponent(s)`. */
  function EncodeUriComponent(s: string): (r: string)
    ensures |r| >= |s|
    ensures forall i :: 0 <= i < |r| ==> IsUnescaped(r[i]) || r[i] == '%'
  {
    if s == [] then [] else EncodeChar(s[0]) + EncodeUriComponent(s[1..])
  }

  /** A string made only of unescaped characters is its own encoding. */
  lemma {:induction false} EncodeUnescapedIsIdentity(s: string)
    requires forall i :: 0 <= i < |s| ==> IsUnescaped(s[i])
    ensures EncodeUriComponent(s) == s
  {
    if s != [] {
      EncodeUnescapedIsIdentity(s[1..]);
    }
  }

  /** Two code points whose encodings start two equal strings have equal
      encodings: the encodings form a prefix code. */
  lemma EncodeCharPrefix(c: char, d: char, x: string, y: string)
    requires EncodeChar(c) + x == EncodeChar(d) + y
    ensures c == d && x == y
  {
    var ec, ed := EncodeChar(c), EncodeChar(d);
    assert ec[0] == (ec + x)[0] == (ed + y)[0] == ed[0];
    if IsUnescaped(c) || IsUnescaped(d) {
      assert IsUnescaped(c) && IsUnescaped(d);
      assert x == (ec + x)[1..] == (ed + y)[1..] == y;
    } else {
      var bc, bd := Utf8(c), Utf8(d);
      assert ec[0..3] == PercentByte(bc[0]) && ed[0..3] == PercentByte(bd[0]);
      assert ec[0..3] == (ec + x)[0..3] == (ed + y)[0..3] == ed[0..3];
      PercentByteInjective(bc[0], bd[0]);
      assert |ec| == |ed|;
      assert ec == (ec + x)[..|ec|] == (ed + y)[..|ed|] == ed;
      forall i | 0 <= i < |bc| ensures bc[i] == bd[i] {
        assert ec[3 * i..3 * i + 3] == ed[3 * i..3 * i + 3];
        PercentByteInjective(bc[i], bd[i]);
      }
      Utf8Injective(c, d);
      assert x == (ec + x)[|ec|..] == (ed + y)[|ed|..] == y;
    }
  }

  /** Different strings have different encodings, so a URL built around
      `encodeURIComponent(s)` determines `s`. */
  lemma {:induction false} EncodeInjective(s: string, t: string)
    requires EncodeUriComponent(s) == EncodeUriComponent(t)
    ensures s == t
  {
    if s != [] && t != [] {
      EncodeCharPrefix(s[0], t[0], EncodeUriComponent(s[1..]), EncodeUriComponent(t[1..]));
      EncodeInjective(s[1..], t[1..]);
      assert s == [s[0]] + s[1..];
      assert t == [t[0]] + t[1..];
    }
  }
}

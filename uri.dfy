/** Percent-encoding of URI components, as ECMAScript's `encodeURIComponent` and
    `decodeURIComponent` perform it (section 2.1 of RFC 3986 for the `%XX` triplets, with the
    octets of a character taken from its UTF-8 encoding, section 3 of RFC 3629). */
module Uri {
  import opened Wrappers

  type Byte = b: int | 0 <= b < 0x100

  /** An upper-case hexadecimal digit, as `encodeURIComponent` writes them. */
  predicate IsHexDigit(c: char) {
    ('0' <= c <= '9') || ('A' <= c <= 'F')
  }

  function HexDigit(n: nat): (c: char)
    requires n < 16
    ensures IsHexDigit(c)
  {
    if n < 10 then ('0' as int + n) as char else ('A' as int + n - 10) as char
  }

  /** The characters `encodeURIComponent` leaves as they are: letters, digits and `-_.!~*'()`. */
  predicate IsUnescaped(c: char) {
    ('A' <= c <= 'Z') || ('a' <= c <= 'z') || ('0' <= c <= '9') || c == '-' || c == '_' || c == '.' || c == '!'
    || c == '~' || c == '*' || c == '\'' || c == '(' || c == ')'
  }

  predicate IsContinuation(b: Byte) {
    0x80 <= b < 0xC0
  }

  /** The number of octets of a UTF-8 sequence announced by its leading octet, or 0 when the
      octet cannot start one (a continuation octet, or five or more leading one bits). */
  function LeadLength(b: Byte): (n: nat)
    ensures n <= 4
  {
    if b < 0x80 then 1
    else if 0xC0 <= b < 0xE0 then 2
    else if 0xE0 <= b < 0xF0 then 3
    else if 0xF0 <= b < 0xF8 then 4
    else 0
  }

  /** The UTF-8 octets of a Unicode scalar value: one to four octets, a leading octet
      that announces the length, and continuation octets after it. */
  function Utf8(c: char): (bs: seq<Byte>)
    ensures 1 <= |bs| <= 4
    ensures LeadLength(bs[0]) == |bs|
    ensures forall i :: 1 <= i < |bs| ==> IsContinuation(bs[i])
  {
    var cp := c as int;
    if cp < 0x80 then [cp]
    else if cp < 0x800 then [0xC0 + cp / 0x40, 0x80 + cp % 0x40]
    else if cp < 0x1_0000 then [0xE0 + cp / 0x1000, 0x80 + cp / 0x40 % 0x40, 0x80 + cp % 0x40]
    else [0xF0 + cp / 0x4_0000, 0x80 + cp / 0x1000 % 0x40, 0x80 + cp / 0x40 % 0x40, 0x80 + cp % 0x40]
  }

  /** The six payload bits of a continuation octet (negative when the octet is not one). */
  function Bits(b: Byte): int {
    b - 0x80
  }

  /** The scalar value a one- to four-octet UTF-8 sequence stands for, when it is a valid
      encoding: the octets must be exactly the encoding of that value (no overlong form, no
      surrogate, nothing above U+10FFFF). `decodeURIComponent` throws `URIError` otherwise. */
  function Utf8Decode(bs: seq<Byte>): (r: Option<char>)
    requires 1 <= |bs| <= 4
    ensures r.Some? ==> Utf8(r.value) == bs
  {
    var b0: int := bs[0];
    var cp: int :=
      if |bs| == 1 then b0
      else if |bs| == 2 then (b0 - 0xC0) * 0x40 + Bits(bs[1])
      else if |bs| == 3 then (b0 - 0xE0) * 0x1000 + Bits(bs[1]) * 0x40 + Bits(bs[2])
      else (b0 - 0xF0) * 0x4_0000 + Bits(bs[1]) * 0x1000 + Bits(bs[2]) * 0x40 + Bits(bs[3]);
    if (0 <= cp < 0xD800 || 0xE000 <= cp < 0x11_0000) && Utf8(cp as char) == bs then Some(cp as char)
    else None
  }

  /** One octet as `%` and two upper-case hexadecimal digits. */
  function PercentByte(b: Byte): (t: string)
    ensures |t| == 3 && t[0] == '%' && IsHexDigit(t[1]) && IsHexDigit(t[2])
  {
    ['%', HexDigit(b / 16), HexDigit(b % 16)]
  }

  function EscapeBytes(bs: seq<Byte>): (t: string)
    ensures |t| == 3 * |bs|
  {
    if bs == [] then [] else PercentByte(bs[0]) + EscapeBytes(bs[1..])
  }

  /** `encodeURIComponent` of one character. */
  function EncodeChar(c: char): (t: string)
    ensures t != []
  {
    if IsUnescaped(c) then [c] else EscapeBytes(Utf8(c))
  }

  /** `encodeURIComponent(s)`. */
  function EncodeComponent(s: string): (t: string)
    ensures |t| >= |s|
  {
    if s == [] then [] else EncodeChar(s[0]) + EncodeComponent(s[1..])
  }

  /** The value of a hexadecimal digit; both cases are accepted when decoding. */
  function HexValue(c: char): (r: Option<nat>)
    ensures r.Some? ==> r.value < 16
  {
    if '0' <= c <= '9' then Some(c as int - '0' as int)
    else if 'A' <= c <= 'F' then Some(c as int - 'A' as int + 10)
    else if 'a' <= c <= 'f' then Some(c as int - 'a' as int + 10)
    else None
  }

  /** Reads `k` consecutive `%XX` triplets from the front of `s`, giving their octets and
      the rest of `s`. */
  function ReadEscapes(s: string, k: nat): (r: Option<(seq<Byte>, string)>)
    ensures r.Some? ==> |r.value.0| == k && |r.value.1| + 3 * k == |s|
  {
    if k == 0 then Some(([], s))
    else if |s| < 3 || s[0] != '%' then None
    else
      match (HexValue(s[1]), HexValue(s[2]))
      case (Some(hi), Some(lo)) =>
        (match ReadEscapes(s[3..], k - 1)
         case Some((bs, rest)) => Some(([hi * 16 + lo] + bs, rest))
         case None => None)
      case _ => None
  }

  function Prepend(c: char, r: Option<string>): Option<string> {
    match r
    case Some(t) => Some([c] + t)
    case None => None
  }

  /** `decodeURIComponent(s)`, with `None` where it throws `URIError`: a `%` not followed by two
      hexadecimal digits, or escaped octets that are not a valid UTF-8 sequence. Characters
      other than `%` are kept as they are. Decoding never makes a string longer. */
  function DecodeComponent(s: string): (r: Option<string>)
    ensures r.Some? ==> |r.value| <= |s|
    decreases |s|
  {
    if s == [] then Some([])
    else if s[0] != '%' then Prepend(s[0], DecodeComponent(s[1..]))
    else
      match ReadEscapes(s, 1)
      case None => None
      case Some((lead, rest)) =>
        var n := LeadLength(lead[0]);
        if n == 0 then None
        else
          match ReadEscapes(rest, n - 1)
          case None => None
          case Some((cont, rest')) =>
            match Utf8Decode(lead + cont)
            case None => None
            case Some(c) => Prepend(c, DecodeComponent(rest'))
  }

  // ---------------------------------------------------------------------------------------
  // Decoding undoes encoding.

  lemma HexDigitValue(n: nat)
    requires n < 16
    ensures HexValue(HexDigit(n)) == Some(n)
  {
  }

  /** The `%XX` triplets written for a run of octets read back as those octets. */
  lemma {:induction false} ReadEscapesOfEscaped(bs: seq<Byte>, t: string)
    ensures ReadEscapes(EscapeBytes(bs) + t, |bs|) == Some((bs, t))
  {
    if bs != [] {
      var s := EscapeBytes(bs) + t;
      var b := bs[0];
      HexDigitValue(b / 16);
      HexDigitValue(b % 16);
      assert s[0] == '%' && s[1] == HexDigit(b / 16) && s[2] == HexDigit(b % 16);
      assert s[3..] == EscapeBytes(bs[1..]) + t;
      ReadEscapesOfEscaped(bs[1..], t);
      assert [b / 16 * 16 + b % 16] + bs[1..] == bs;
    } else {
      assert EscapeBytes(bs) + t == t;
    }
  }

  /** Splitting a value into 6-bit groups and putting them back together gives the value. */
  lemma SixBitGroups(cp: int)
    requires 0 <= cp < 0x11_0000
    ensures cp / 0x40 == cp / 0x1000 * 0x40 + cp / 0x40 % 0x40
    ensures cp / 0x1000 == cp / 0x4_0000 * 0x40 + cp / 0x1000 % 0x40
  {
    var a := cp / 0x40;
    var b := cp / 0x1000;
    assert cp == a * 0x40 + cp % 0x40;
    assert cp == b * 0x1000 + cp % 0x1000;
    assert a / 0x40 == b;
    assert cp / 0x4_0000 == b / 0x40;
  }

  /** Every character of an encoding is unescaped, `%`, or an upper-case hexadecimal digit. */
  predicate InEncodedAlphabet(t: string) {
    forall i :: 0 <= i < |t| ==> IsUnescaped(t[i]) || t[i] == '%' || IsHexDigit(t[i])
  }

  lemma {:induction false} EscapeBytesAlphabet(bs: seq<Byte>)
    ensures InEncodedAlphabet(EscapeBytes(bs))
    decreases |bs|
  {
    if bs != [] {
      EscapeBytesAlphabet(bs[1..]);
    }
  }

  lemma {:induction false} EncodedAlphabet(s: string)
    ensures InEncodedAlphabet(EncodeComponent(s))
    decreases |s|
  {
    if s != [] {
      EncodedAlphabet(s[1..]);
      if !IsUnescaped(s[0]) {
        EscapeBytesAlphabet(Utf8(s[0]));
      }
    }
  }

  lemma Utf8RoundTrip2(c: char)
    requires 0x80 <= c as int < 0x800
    ensures Utf8Decode(Utf8(c)) == Some(c)
  {
    var cp := c as int;
    assert (cp / 0x40) * 0x40 + cp % 0x40 == cp;
  }

  lemma Utf8RoundTrip3(c: char)
    requires 0x800 <= c as int < 0x1_0000
    ensures Utf8Decode(Utf8(c)) == Some(c)
  {
    var cp := c as int;
    SixBitGroups(cp);
    var bs := Utf8(c);
    assert (bs[0] - 0xE0) * 0x1000 + Bits(bs[1]) * 0x40 + Bits(bs[2]) == cp;
  }

  lemma Utf8RoundTrip4(c: char)
    requires 0x1_0000 <= c as int
    ensures Utf8Decode(Utf8(c)) == Some(c)
  {
    var cp := c as int;
    SixBitGroups(cp);
    var bs := Utf8(c);
    assert (bs[0] - 0xF0) * 0x4_0000 + Bits(bs[1]) * 0x1000 + Bits(bs[2]) * 0x40 + Bits(bs[3]) == cp;
  }

  /** UTF-8 decoding undoes UTF-8 encoding. */
  lemma Utf8RoundTrip(c: char)
    ensures Utf8Decode(Utf8(c)) == Some(c)
  {
    var cp := c as int;
    if cp < 0x80 {
    } else if cp < 0x800 {
      Utf8RoundTrip2(c);
    } else if cp < 0x1_0000 {
      Utf8RoundTrip3(c);
    } else {
      Utf8RoundTrip4(c);
    }
  }

  /** The escaped UTF-8 octets of a character, in front of any text, decode to that character
      in front of the decoding of the text. */
  lemma DecodeEscapedChar(c: char, t: string)
    ensures DecodeComponent(EscapeBytes(Utf8(c)) + t) == Prepend(c, DecodeComponent(t))
  {
    var bs := Utf8(c);
    var lead, more := bs[..1], bs[1..];
    var rest := EscapeBytes(more) + t;
    var s := EscapeBytes(bs) + t;
    assert EscapeBytes(lead) == PercentByte(bs[0]);
    assert s == EscapeBytes(lead) + rest;
    ReadEscapesOfEscaped(lead, rest);
    ReadEscapesOfEscaped(more, t);
    assert lead + more == bs;
    Utf8RoundTrip(c);
    assert s[0] == '%';
    assert ReadEscapes(s, 1) == Some((lead, rest));
    assert LeadLength(lead[0]) - 1 == |more|;
    assert ReadEscapes(rest, |more|) == Some((more, t));
    assert Utf8Decode(lead + more) == Some(c);
  }

  /** Decoding the encoding of one character in front of any text yields that character in
      front of the decoding of the text. */
  lemma DecodeEncodedChar(c: char, t: string)
    ensures DecodeComponent(EncodeChar(c) + t) == Prepend(c, DecodeComponent(t))
  {
    if IsUnescaped(c) {
      var s := EncodeChar(c) + t;
      assert s[0] == c && s[0] != '%' && s[1..] == t;
    } else {
      DecodeEscapedChar(c, t);
    }
  }

  /** `decodeURIComponent(encodeURIComponent(s)) === s` for every string. */
  lemma {:induction false} DecodeEncode(s: string)
    ensures DecodeComponent(EncodeComponent(s)) == Some(s)
  {
    if s != [] {
      DecodeEncodedChar(s[0], EncodeComponent(s[1..]));
      DecodeEncode(s[1..]);
      assert [s[0]] + s[1..] == s;
    }
  }

  /** A string of unescaped characters is its own encoding. */
  lemma {:induction false} EncodeUnescaped(s: string)
    requires forall i :: 0 <= i < |s| ==> IsUnescaped(s[i])
    ensures EncodeComponent(s) == s
    decreases |s|
  {
    if s != [] {
      EncodeUnescaped(s[1..]);
      assert [s[0]] + s[1..] == s;
    }
  }

  /** A space is sent as `%20`. */
  lemma EncodeSpace()
    ensures EncodeChar(' ') == "%20"
  {
    assert Utf8(' ') == [0x20];
    assert HexDigit(2) == '2' && HexDigit(0) == '0';
    assert EscapeBytes([0x20]) == PercentByte(0x20) + EscapeBytes([]);
  }

  /** The encoding of a component never holds a character that delimits parts of a URI or of
      a query string. */
  predicate IsDelimiter(c: char) {
    c == '&' || c == '=' || c == '?' || c == '#' || c == '+' || c == '/' || c == ' '
  }

  lemma EncodedHasNoDelimiters(s: string)
    ensures var t := EncodeComponent(s); forall i :: 0 <= i < |t| ==> !IsDelimiter(t[i])
  {
    EncodedAlphabet(s);
  }
}

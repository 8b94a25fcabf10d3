/**
 * `encodeURIComponent`: the UTF-8 bytes of a string, each either kept as the
 * character it is (the unreserved set of ECMAScript's URI functions) or written
 * as `%` and two upper-case hexadecimal digits; and `decodeURIComponent`, its
 * inverse.
 */
module UriEncoding {
  import opened Wrappers
  import opened Utf8

  /** Bytes `encodeURIComponent` leaves as they are: ASCII letters, digits and `-_.!~*'()`. */
  predicate IsUnreserved(b: Byte) {
    ('A' as int <= b <= 'Z' as int) || ('a' as int <= b <= 'z' as int) || ('0' as int <= b <= '9' as int)
    || b == '-' as int || b == '_' as int || b == '.' as int || b == '!' as int
    || b == '~' as int || b == '*' as int || b == '\'' as int || b == '(' as int || b == ')' as int
  }

  predicate IsHexDigit(c: char) {
    ('0' <= c <= '9') || ('A' <= c <= 'F')
  }

  /** A character that may appear in the output of `encodeURIComponent`. */
  predicate IsEncodedChar(c: char) {
    (c as int < 128 && IsUnreserved(c as int)) || c == '%' || IsHexDigit(c)
  }

  function HexDigit(d: nat): (c: char)
    requires d < 16
    ensures IsHexDigit(c)
  {
    if d < 10 then ('0' as int + d) as char else ('A' as int + (d - 10)) as char
  }

  function HexValue(c: char): (r: Option<nat>)
    ensures r.Some? ==> r.value < 16
  {
    if '0' <= c <= '9' then Some(c as int - '0' as int)
    else if 'A' <= c <= 'F' then Some(c as int - 'A' as int + 10)
    else if 'a' <= c <= 'f' then Some(c as int - 'a' as int + 10)
    else None
  }

  function EncodeByte(b: Byte): (r: string)
    ensures forall i :: 0 <= i < |r| ==> IsEncodedChar(r[i])
  {
    if IsUnreserved(b) then [b as char] else ['%', HexDigit(b / 16), HexDigit(b % 16)]
  }

  function EncodeBytes(bs: seq<Byte>): (r: string)
    ensures forall i :: 0 <= i < |r| ==> IsEncodedChar(r[i])
  {
    if bs == [] then "" else EncodeByte(bs[0]) + EncodeBytes(bs[1..])
  }

  /**
   * `encodeURIComponent(s)`. Its output holds only unreserved characters, `%`
   * and hexadecimal digits, so none of `&`, `=`, `?`, `#`, `/`, `:` or space.
   */
  function EncodeURIComponent(s: string): (r: string)
    ensures forall i :: 0 <= i < |r| ==> IsEncodedChar(r[i])
  {
    EncodeBytes(Utf8.Encode(s))
  }

  /** The bytes a percent-encoded string stands for: `%XY` is one byte, any other character its UTF-8 encoding. */
  function PercentDecode(s: string): Option<seq<Byte>>
    decreases |s|
  {
    if s == [] then Some([])
    else if s[0] == '%' then
      if |s| >= 3 && HexValue(s[1]).Some? && HexValue(s[2]).Some? then
        match PercentDecode(s[3..])
        case None => None
        case Some(rest) => Some([HexValue(s[1]).value * 16 + HexValue(s[2]).value] + rest)
      else None
    else
      match PercentDecode(s[1..])
      case None => None
      case Some(rest) => Some(Utf8.EncodeChar(s[0]) + rest)
  }

  /** `decodeURIComponent(s)`, None where it would throw a URIError. */
  function DecodeURIComponent(s: string): Option<string> {
    match PercentDecode(s)
    case None => None
    case Some(bs) => Utf8.Decode(bs)
  }

  /** Decoding one encoded byte in front of decodable text gives that byte in front of the text's bytes. */
  lemma {:induction false} PercentDecodeOneByte(b: Byte, rest: string)
    requires PercentDecode(rest).Some?
    ensures PercentDecode(EncodeByte(b) + rest) == Some([b] + PercentDecode(rest).value)
  {
    if IsUnreserved(b) {
      PercentDecodeKept(b, rest);
    } else {
      PercentDecodeEscaped(b, rest);
    }
  }

  lemma {:induction false} PercentDecodeKept(b: Byte, rest: string)
    requires PercentDecode(rest).Some? && IsUnreserved(b)
    ensures PercentDecode([b as char] + rest) == Some([b] + PercentDecode(rest).value)
  {
    var s := [b as char] + rest;
    assert s[0] == b as char && s[1..] == rest;
    assert Utf8.EncodeChar(b as char) == [b];
  }

  lemma {:induction false} PercentDecodeEscaped(b: Byte, rest: string)
    requires PercentDecode(rest).Some?
    ensures PercentDecode(['%', HexDigit(b / 16), HexDigit(b % 16)] + rest) == Some([b] + PercentDecode(rest).value)
  {
    var s := ['%', HexDigit(b / 16), HexDigit(b % 16)] + rest;
    assert s[0] == '%' && s[3..] == rest;
    assert HexValue(s[1]) == Some(b / 16) && HexValue(s[2]) == Some(b % 16);
  }

  lemma {:induction false} PercentDecodeEncodeBytes(bs: seq<Byte>)
    ensures PercentDecode(EncodeBytes(bs)) == Some(bs)
  {
    if bs != [] {
      PercentDecodeEncodeBytes(bs[1..]);
      PercentDecodeOneByte(bs[0], EncodeBytes(bs[1..]));
      assert [bs[0]] + bs[1..] == bs;
    }
  }

  /** `decodeURIComponent(encodeURIComponent(s)) === s` for every string. */
  lemma {:induction false} DecodeEncodeURIComponent(s: string)
    ensures DecodeURIComponent(EncodeURIComponent(s)) == Some(s)
  {
    PercentDecodeEncodeBytes(Utf8.Encode(s));
    Utf8.DecodeEncode(s);
  }

  /** The characters that would end or split a query parameter never occur in an encoded component. */
  lemma {:induction false} EncodedHasNoDelimiters(s: string)
    ensures '&' !in EncodeURIComponent(s) && '=' !in EncodeURIComponent(s)
    ensures '#' !in EncodeURIComponent(s) && ' ' !in EncodeURIComponent(s)
  {
    var r := EncodeURIComponent(s);
    forall i | 0 <= i < |r| ensures r[i] != '&' && r[i] != '=' && r[i] != '#' && r[i] != ' ' {
      assert IsEncodedChar(r[i]);
    }
  }
}

/**
 * Base64 with the standard alphabet and `=` padding (section 4 of RFC 4648),
 * as `buffer.toString('base64')` produces it and `Buffer.from(text, 'base64')`
 * reads it back.
 */
module Base64 {
  import opened Wrappers
  import opened Utf8

  /** The character for a six-bit value. */
  function Alphabet(i: nat): (c: char)
    requires i < 64
    ensures c != '='
    ensures SixBits(c) == Some(i)
  {
    if i < 26 then ('A' as int + i) as char
    else if i < 52 then ('a' as int + (i - 26)) as char
    else if i < 62 then ('0' as int + (i - 52)) as char
    else if i == 62 then '+'
    else '/'
  }

  /** The six-bit value of an alphabet character; None for any other character. */
  function SixBits(c: char): (r: Option<nat>)
    ensures r.Some? ==> r.value < 64
  {
    if 'A' <= c <= 'Z' then Some(c as int - 'A' as int)
    else if 'a' <= c <= 'z' then Some(c as int - 'a' as int + 26)
    else if '0' <= c <= '9' then Some(c as int - '0' as int + 52)
    else if c == '+' then Some(62)
    else if c == '/' then Some(63)
    else None
  }

  /** The three bytes four six-bit values stand for. */
  function Bytes3(c0: nat, c1: nat, c2: nat, c3: nat): seq<Byte>
    requires c0 < 64 && c1 < 64 && c2 < 64 && c3 < 64
  {
    [c0 * 4 + c1 / 16, (c1 % 16) * 16 + c2 / 4, (c2 % 4) * 64 + c3]
  }

  lemma {:induction false} DivMod16(a: nat, b: nat)
    requires b < 16
    ensures (a * 16 + b) / 16 == a && (a * 16 + b) % 16 == b
  {
  }

  lemma {:induction false} DivMod4(a: nat, b: nat)
    requires b < 4
    ensures (a * 4 + b) / 4 == a && (a * 4 + b) % 4 == b
  {
  }

  /** The 24 bits of a byte triple cut into four six-bit values, most significant first. */
  function Sextets(b0: Byte, b1: Byte, b2: Byte): (c: seq<nat>)
    ensures |c| == 4 && c[0] < 64 && c[1] < 64 && c[2] < 64 && c[3] < 64
    ensures Bytes3(c[0], c[1], c[2], c[3]) == [b0, b1, b2]
  {
    DivMod16(b0 % 4, b1 / 16);
    DivMod4(b1 % 16, b2 / 64);
    [b0 / 4, (b0 % 4) * 16 + b1 / 16, (b1 % 16) * 4 + b2 / 64, b2 % 64]
  }

  /** Base64 encoding: every three bytes become four characters; a short tail is padded with `=`. */
  function Encode(bs: seq<Byte>): (r: string)
    ensures |r| == 4 * ((|bs| + 2) / 3)
    decreases |bs|
  {
    if |bs| == 0 then ""
    else if |bs| == 1 then
      var c := Sextets(bs[0], 0, 0);
      [Alphabet(c[0]), Alphabet(c[1]), '=', '=']
    else if |bs| == 2 then
      var c := Sextets(bs[0], bs[1], 0);
      [Alphabet(c[0]), Alphabet(c[1]), Alphabet(c[2]), '=']
    else
      var c := Sextets(bs[0], bs[1], bs[2]);
      var rest := Encode(bs[3..]);
      assert (|bs| + 2) / 3 == 1 + (|bs| - 3 + 2) / 3;
      [Alphabet(c[0]), Alphabet(c[1]), Alphabet(c[2]), Alphabet(c[3])] + rest
  }

  /** Base64 decoding of padded text; None when a character is outside the alphabet or the length is not a multiple of four. */
  function Decode(s: string): Option<seq<Byte>>
    decreases |s|
  {
    if |s| == 0 then Some([])
    else if |s| < 4 || SixBits(s[0]).None? || SixBits(s[1]).None? then None
    else
      var c0, c1 := SixBits(s[0]).value, SixBits(s[1]).value;
      if |s| == 4 && s[2] == '=' && s[3] == '=' then Some(Bytes3(c0, c1, 0, 0)[..1])
      else if |s| == 4 && SixBits(s[2]).Some? && s[3] == '=' then
        Some(Bytes3(c0, c1, SixBits(s[2]).value, 0)[..2])
      else if SixBits(s[2]).Some? && SixBits(s[3]).Some? then
        match Decode(s[4..])
        case None => None
        case Some(rest) => Some(Bytes3(c0, c1, SixBits(s[2]).value, SixBits(s[3]).value) + rest)
      else None
  }

  /** One byte: two characters and two `=` decode back to it. */
  lemma {:induction false} DecodeOne(b0: Byte)
    ensures Decode(Encode([b0])) == Some([b0])
  {
    var c := Sextets(b0, 0, 0);
    var s := Encode([b0]);
    assert s == [Alphabet(c[0]), Alphabet(c[1]), '=', '='];
    assert SixBits(s[0]) == Some(c[0]) && SixBits(s[1]) == Some(c[1]);
    assert Decode(s) == Some(Bytes3(c[0], c[1], 0, 0)[..1]);
    assert Bytes3(c[0], c[1], 0, 0)[..1] == [c[0] * 4 + c[1] / 16];
    assert Bytes3(c[0], c[1], c[2], c[3])[0] == b0;
  }

  /** Two bytes: three characters and one `=` decode back to them. */
  lemma {:induction false} DecodeTwo(b0: Byte, b1: Byte)
    ensures Decode(Encode([b0, b1])) == Some([b0, b1])
  {
    var c := Sextets(b0, b1, 0);
    var s := Encode([b0, b1]);
    assert s == [Alphabet(c[0]), Alphabet(c[1]), Alphabet(c[2]), '='];
    assert SixBits(s[0]) == Some(c[0]) && SixBits(s[1]) == Some(c[1]) && SixBits(s[2]) == Some(c[2]);
    assert Decode(s) == Some(Bytes3(c[0], c[1], c[2], 0)[..2]);
    assert Bytes3(c[0], c[1], c[2], 0)[..2] == [c[0] * 4 + c[1] / 16, (c[1] % 16) * 16 + c[2] / 4];
    var full := Bytes3(c[0], c[1], c[2], c[3]);
    assert full[0] == b0 && full[1] == b1;
  }

  /** A full group of four characters decodes to its three bytes, in front of what the rest decodes to. */
  lemma {:induction false} DecodeGroup(b0: Byte, b1: Byte, b2: Byte, rest: string)
    requires Decode(rest).Some?
    ensures var c := Sextets(b0, b1, b2);
      Decode([Alphabet(c[0]), Alphabet(c[1]), Alphabet(c[2]), Alphabet(c[3])] + rest)
      == Some([b0, b1, b2] + Decode(rest).value)
  {
    var c := Sextets(b0, b1, b2);
    var s := [Alphabet(c[0]), Alphabet(c[1]), Alphabet(c[2]), Alphabet(c[3])] + rest;
    assert s[4..] == rest;
    assert s[3] != '=';
  }

  /** Decoding the encoding of any byte sequence gives the bytes back. */
  lemma {:induction false} DecodeEncode(bs: seq<Byte>)
    ensures Decode(Encode(bs)) == Some(bs)
    decreases |bs|
  {
    if |bs| == 1 {
      assert bs == [bs[0]];
      DecodeOne(bs[0]);
    } else if |bs| == 2 {
      assert bs == [bs[0], bs[1]];
      DecodeTwo(bs[0], bs[1]);
    } else if |bs| > 2 {
      DecodeEncode(bs[3..]);
      DecodeGroup(bs[0], bs[1], bs[2], Encode(bs[3..]));
      assert [bs[0], bs[1], bs[2]] + bs[3..] == bs;
    }
  }
}

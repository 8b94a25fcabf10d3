/**
 * UTF-8, the encoding `Buffer.from(string)` and `encodeURIComponent` apply to a
 * string before turning it into bytes, and `buffer.toString('utf8')` undoes.
 */
module Utf8 {
  import opened Wrappers

  type Byte = b: int | 0 <= b < 256

  /** A Unicode scalar value: a code point that is not a surrogate. */
  predicate IsScalar(n: int) {
    0 <= n < 0xD800 || 0xE000 <= n < 0x110000
  }

  predicate IsContinuation(b: Byte) {
    0x80 <= b < 0xC0
  }

  /** The one to four bytes that encode one character. */
  function EncodeChar(c: char): (r: seq<Byte>)
    ensures 1 <= |r| <= 4
    ensures c as int < 0x80 <==> |r| == 1
    ensures c as int < 0x80 ==> r == [c as int]
    ensures forall i :: 1 <= i < |r| ==> IsContinuation(r[i])
  {
    var n := c as int;
    if n < 0x80 then [n]
    else if n < 0x800 then [0xC0 + n / 64, 0x80 + n % 64]
    else if n < 0x10000 then [0xE0 + n / 4096, 0x80 + (n / 64) % 64, 0x80 + n % 64]
    else [0xF0 + n / 262144, 0x80 + (n / 4096) % 64, 0x80 + (n / 64) % 64, 0x80 + n % 64]
  }

  /** The UTF-8 encoding of a string. */
  function Encode(s: string): (r: seq<Byte>)
    ensures |s| <= |r| <= 4 * |s|
  {
    if s == [] then [] else EncodeChar(s[0]) + Encode(s[1..])
  }

  /** Reads one character from the front of `bs`; gives it with the number of bytes it took. */
  function DecodeChar(bs: seq<Byte>): (r: Option<(char, nat)>)
    requires |bs| > 0
    ensures r.Some? ==> 1 <= r.value.1 <= |bs|
  {
    var b0: int := bs[0];
    if b0 < 0x80 then Some((b0 as char, 1))
    else if 0xC2 <= b0 < 0xE0 && |bs| >= 2 && IsContinuation(bs[1]) then
      var b1: int := bs[1];
      Some((((b0 - 0xC0) * 64 + (b1 - 0x80)) as char, 2))
    else if 0xE0 <= b0 < 0xF0 && |bs| >= 3 && IsContinuation(bs[1]) && IsContinuation(bs[2]) then
      var b1: int, b2: int := bs[1], bs[2];
      var n := ((b0 - 0xE0) * 64 + (b1 - 0x80)) * 64 + (b2 - 0x80);
      if 0x800 <= n && IsScalar(n) then Some((n as char, 3)) else None
    else if 0xF0 <= b0 < 0xF5 && |bs| >= 4 && IsContinuation(bs[1]) && IsContinuation(bs[2])
      && IsContinuation(bs[3]) then
      var b1: int, b2: int, b3: int := bs[1], bs[2], bs[3];
      var n := (((b0 - 0xF0) * 64 + (b1 - 0x80)) * 64 + (b2 - 0x80)) * 64 + (b3 - 0x80);
      if 0x10000 <= n < 0x110000 then Some((n as char, 4)) else None
    else None
  }

  /** Strict UTF-8 decoding: None for a byte sequence that is not well formed. */
  function Decode(bs: seq<Byte>): Option<string>
    decreases |bs|
  {
    if bs == [] then Some("")
    else
      match DecodeChar(bs)
      case None => None
      case Some((c, k)) =>
        match Decode(bs[k..])
        case None => None
        case Some(rest) => Some([c] + rest)
  }

  lemma {:induction false} SplitSixBitGroups(n: nat)
    ensures n / 4096 == (n / 64) / 64
    ensures n / 262144 == (n / 4096) / 64
    ensures (n / 64) * 64 + n % 64 == n
  {
  }

  lemma {:induction false} DecodeTwoBytes(c: char, rest: seq<Byte>)
    requires 0x80 <= c as int < 0x800
    ensures DecodeChar(EncodeChar(c) + rest) == Some((c, 2))
  {
    var n := c as int;
    var bs := EncodeChar(c) + rest;
    SplitSixBitGroups(n);
    var b0: int, b1: int := bs[0], bs[1];
    assert b0 == 0xC0 + n / 64 && b1 == 0x80 + n % 64;
  }

  lemma {:induction false} DecodeThreeBytes(c: char, rest: seq<Byte>)
    requires 0x800 <= c as int < 0x10000
    ensures DecodeChar(EncodeChar(c) + rest) == Some((c, 3))
  {
    var n := c as int;
    var bs := EncodeChar(c) + rest;
    SplitSixBitGroups(n);
    SplitSixBitGroups(n / 64);
    var b0: int, b1: int, b2: int := bs[0], bs[1], bs[2];
    assert b0 == 0xE0 + n / 4096 && b1 == 0x80 + (n / 64) % 64 && b2 == 0x80 + n % 64;
    assert (b0 - 0xE0) * 64 + (b1 - 0x80) == n / 64;
  }

  lemma {:induction false} DecodeFourBytes(c: char, rest: seq<Byte>)
    requires 0x10000 <= c as int
    ensures DecodeChar(EncodeChar(c) + rest) == Some((c, 4))
  {
    var n := c as int;
    var bs := EncodeChar(c) + rest;
    SplitSixBitGroups(n);
    SplitSixBitGroups(n / 64);
    var b0: int, b1: int, b2: int, b3: int := bs[0], bs[1], bs[2], bs[3];
    assert b0 == 0xF0 + n / 262144 && b1 == 0x80 + (n / 4096) % 64;
    assert b2 == 0x80 + (n / 64) % 64 && b3 == 0x80 + n % 64;
    assert (b0 - 0xF0) * 64 + (b1 - 0x80) == n / 4096;
    assert ((b0 - 0xF0) * 64 + (b1 - 0x80)) * 64 + (b2 - 0x80) == n / 64;
  }

  /** Decoding the encoding of a character, whatever follows it, gives back the character. */
  lemma {:induction false} DecodeEncodeChar(c: char, rest: seq<Byte>)
    ensures DecodeChar(EncodeChar(c) + rest) == Some((c, |EncodeChar(c)|))
  {
    var n := c as int;
    if n < 0x80 {
    } else if n < 0x800 {
      DecodeTwoBytes(c, rest);
    } else if n < 0x10000 {
      DecodeThreeBytes(c, rest);
    } else {
      DecodeFourBytes(c, rest);
    }
  }

  /** Decoding an encoded string gives back the string (`Buffer.from(s).toString() === s`). */
  lemma {:induction false} DecodeEncode(s: string)
    ensures Decode(Encode(s)) == Some(s)
  {
    if s != [] {
      var e := EncodeChar(s[0]);
      DecodeEncodeChar(s[0], Encode(s[1..]));
      DecodeEncode(s[1..]);
      assert (e + Encode(s[1..]))[|e|..] == Encode(s[1..]);
      assert [s[0]] + s[1..] == s;
    }
  }

  /** The encoding of a concatenation is the concatenation of the encodings. */
  lemma {:induction false} EncodeAppend(a: string, b: string)
    ensures Encode(a + b) == Encode(a) + Encode(b)
  {
    if a == [] {
      assert a + b == b;
    } else {
      assert (a + b)[0] == a[0] && (a + b)[1..] == a[1..] + b;
      EncodeAppend(a[1..], b);
    }
  }
}

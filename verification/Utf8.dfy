/** Bytes, and the UTF-8 byte form of a text.  A Go string that came out of the
    JSON decoder is valid UTF-8, so it is modelled as a sequence of Unicode scalar
    values; `Encode` is the byte sequence that the cipher and the MACs work on. */
module Utf8 {

  type byte = x: int | 0 <= x < 256
  type Bytes = seq<byte>

  /** Section 3 of RFC 3629. */
  function EncodeChar(c: char): (b: Bytes)
    ensures 1 <= |b| <= 4
  {
    var n := c as int;
    if n < 0x80 then
      [n]
    else if n < 0x800 then
      [0xC0 + n / 64, 0x80 + n % 64]
    else if n < 0x10000 then
      [0xE0 + n / 4096, 0x80 + n / 64 % 64, 0x80 + n % 64]
    else
      [0xF0 + n / 262144, 0x80 + n / 4096 % 64, 0x80 + n / 64 % 64, 0x80 + n % 64]
  }

  function Encode(s: string): (b: Bytes)
    ensures |s| <= |b| <= 4 * |s|
  {
    if s == "" then [] else EncodeChar(s[0]) + Encode(s[1..])
  }

  /** The scalar value that the bytes of one character stand for. */
  function Scalar(b: seq<int>): int
    requires 1 <= |b| <= 4
  {
    match |b|
    case 1 => b[0]
    case 2 => (b[0] - 0xC0) * 64 + (b[1] - 0x80)
    case 3 => (b[0] - 0xE0) * 4096 + (b[1] - 0x80) * 64 + (b[2] - 0x80)
    case _ => (b[0] - 0xF0) * 262144 + (b[1] - 0x80) * 4096 + (b[2] - 0x80) * 64 + (b[3] - 0x80)
  }

  lemma ScalarOfChar(c: char)
    ensures Scalar(EncodeChar(c)) == c as int
  {
    var n := c as int;
    Digits(n);
    if n >= 0x10000 {
      Digits(n / 64);
      Digits(n / 4096);
      assert n / 64 / 64 == n / 4096 && n / 4096 / 64 == n / 262144;
    }
  }

  /** The shape of a character's bytes, and what their bits say (table in section 3). */
  lemma CharBytes(c: char)
    ensures var n: int := c as int;
            var b: seq<int> := EncodeChar(c);
            && (n < 0x80 <==> |b| == 1) && (0x80 <= n < 0x800 <==> |b| == 2)
            && (0x800 <= n < 0x10000 <==> |b| == 3) && (n >= 0x10000 <==> |b| == 4)
            && (forall k :: 1 <= k < |b| ==> 0x80 <= b[k] < 0xC0)
            && match |b|
               case 1 => b[0] == n
               case 2 => 0xC0 <= b[0] < 0xE0 && (b[0] - 0xC0) * 0x40 + (b[1] - 0x80) == n
               case 3 => 0xE0 <= b[0] < 0xF0 && (b[0] - 0xE0) * 0x1000 + (b[1] - 0x80) * 0x40 + (b[2] - 0x80) == n
               case _ => 0xF0 <= b[0] < 0xF8
                         && (b[0] - 0xF0) * 0x40000 + (b[1] - 0x80) * 0x1000 + (b[2] - 0x80) * 0x40 + (b[3] - 0x80) == n
  {
    ScalarOfChar(c);
  }

  lemma Digits(n: nat)
    ensures n == 64 * (n / 64) + n % 64
  {
  }

  /** The code is prefix-free: the first character can be read off the bytes. */
  lemma HeadInjective(c: char, x: Bytes, d: char, y: Bytes)
    requires EncodeChar(c) + x == EncodeChar(d) + y
    ensures c == d && x == y
  {
    var b, e := EncodeChar(c), EncodeChar(d);
    assert (b + x)[0] == b[0] && (e + y)[0] == e[0];
    assert |b| == |e|;
    assert forall i :: 0 <= i < |b| ==> b[i] == (b + x)[i] == (e + y)[i] == e[i];
    assert b == e;
    ScalarOfChar(c);
    ScalarOfChar(d);
    assert x == (b + x)[|b|..] == (e + y)[|e|..] == y;
  }

  lemma {:induction false} EncodeInjective(s: string, t: string)
    requires Encode(s) == Encode(t)
    ensures s == t
  {
    if s == "" || t == "" {
    } else {
      HeadInjective(s[0], Encode(s[1..]), t[0], Encode(t[1..]));
      EncodeInjective(s[1..], t[1..]);
      assert s == [s[0]] + s[1..] && t == [t[0]] + t[1..];
    }
  }

  lemma EncodeHead(c: char, s: string)
    ensures Encode([c] + s) == EncodeChar(c) + Encode(s)
  {
    hide EncodeChar;
    assert ([c] + s)[1..] == s;
  }

  lemma EncodeNothing()
    ensures Encode("") == []
  {
  }

  lemma {:induction false} EncodeConcat(s: string, t: string)
    ensures Encode(s + t) == Encode(s) + Encode(t)
  {
    hide Encode, EncodeChar;
    if s == "" {
      EncodeNothing();
      assert s + t == t;
    } else {
      EncodeConcat(s[1..], t);
      EncodeHead(s[0], s[1..]);
      EncodeHead(s[0], s[1..] + t);
      assert s == [s[0]] + s[1..] && s + t == [s[0]] + (s[1..] + t);
    }
  }
}

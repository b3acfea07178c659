/** The ids that gen_random_uuid() generates: version 4 of RFC 9562, section 5.4, in
    lower-case text form.  All but the version and the variant is random. */
module Uuids {
  import opened Crypto

  predicate IsHex(c: char) {
    '0' <= c <= '9' || 'a' <= c <= 'f'
  }

  predicate IsUuidV4(s: string) {
    && |s| == 36
    && s[8] == s[13] == s[18] == s[23] == '-'
    && s[14] == '4' && s[19] in {'8', '9', 'a', 'b'}
    && forall i :: 0 <= i < 36 && i !in {8, 13, 18, 23} ==> IsHex(s[i])
  }

  function Power16(k: nat): nat {
    if k == 0 then 1 else 16 * Power16(k - 1)
  }

  /** Zero-padded hexadecimal of fixed width. */
  function HexPad(n: nat, width: nat): (s: string)
    ensures |s| == width
  {
    if width == 0 then "" else HexPad(n / 16, width - 1) + [HexDigit(n % 16)]
  }

  lemma HexDigitForm(n: nat)
    requires n < 16
    ensures IsHex(HexDigit(n))
  {
  }

  lemma {:induction false} HexPadForm(n: nat, width: nat)
    ensures forall i :: 0 <= i < width ==> IsHex(HexPad(n, width)[i])
  {
    if width == 0 {
    } else {
      HexPadForm(n / 16, width - 1);
      HexDigitForm(n % 16);
      hide HexDigit, IsHex;
    }
  }

  lemma {:induction false} HexPadInjective(m: nat, n: nat, width: nat)
    requires m < Power16(width) && n < Power16(width) && HexPad(m, width) == HexPad(n, width)
    ensures m == n
  {
    if width == 0 {
    } else {
      var x, y := HexPad(m, width), HexPad(n, width);
      assert x[..width - 1] == HexPad(m / 16, width - 1) && y[..width - 1] == HexPad(n / 16, width - 1);
      assert x[width - 1] == HexDigit(m % 16) && y[width - 1] == HexDigit(n % 16);
      HexDigitInjective(m % 16, n % 16);
      HexPadInjective(m / 16, n / 16, width - 1);
    }
  }

  const HEAD := "00000000-0000-4000-8000-"

  /** The ids with zeros in all but the last group. */
  function Numbered(n: nat): string {
    HEAD + HexPad(n, 12)
  }

  lemma NumberedForm(n: nat)
    ensures IsUuidV4(Numbered(n))
  {
    HexPadForm(n, 12);
    HeadForm(HexPad(n, 12));
  }

  lemma HeadForm(tail: string)
    requires |tail| == 12 && forall i :: 0 <= i < 12 ==> IsHex(tail[i])
    ensures IsUuidV4(HEAD + tail)
  {
    var s := HEAD + tail;
    forall i | 0 <= i < 36 && i !in {8, 13, 18, 23}
      ensures IsHex(s[i])
    {
      if i >= 24 {
        assert s[i] == tail[i - 24];
      } else {
        assert s[i] == HEAD[i];
      }
    }
  }

  lemma NumberedInjective(m: nat, n: nat)
    requires m < Power16(12) && n < Power16(12) && Numbered(m) == Numbered(n)
    ensures m == n
  {
    hide HexPad, Power16;
    assert Numbered(m)[|HEAD|..] == HexPad(m, 12) && Numbered(n)[|HEAD|..] == HexPad(n, 12);
    HexPadInjective(m, n, 12);
  }
}

/** Standard padded base64 (section 4 of RFC 4648) as Go's encoding/base64 decodes
    it: line breaks are skipped and unused trailing bits are not checked. */
module Base64 {
  import opened Wrappers
  import opened Utf8
  import opened Text

  type Sextet = x: int | 0 <= x < 64

  function Symbol(i: Sextet): char {
    if i < 26 then 'A' + i as char
    else if i < 52 then 'a' + (i - 26) as char
    else if i < 62 then '0' + (i - 52) as char
    else if i == 62 then '+' else '/'
  }

  predicate IsSymbol(c: char) {
    'A' <= c <= 'Z' || 'a' <= c <= 'z' || '0' <= c <= '9' || c == '+' || c == '/'
  }

  function Value(c: char): Sextet
    requires IsSymbol(c)
  {
    if 'A' <= c <= 'Z' then c as int - 'A' as int
    else if 'a' <= c <= 'z' then c as int - 'a' as int + 26
    else if '0' <= c <= '9' then c as int - '0' as int + 52
    else if c == '+' then 62 else 63
  }

  lemma SymbolValue(i: Sextet)
    ensures IsSymbol(Symbol(i)) && Value(Symbol(i)) == i
  {
  }

  lemma ValueSymbol(c: char)
    requires IsSymbol(c)
    ensures Symbol(Value(c)) == c
  {
  }

  function Encode(b: Bytes): string {
    if |b| == 0 then ""
    else if |b| == 1 then
      [Symbol(b[0] / 4), Symbol(b[0] % 4 * 16), '=', '=']
    else if |b| == 2 then
      [Symbol(b[0] / 4), Symbol(b[0] % 4 * 16 + b[1] / 16), Symbol(b[1] % 16 * 4), '=']
    else
      [Symbol(b[0] / 4), Symbol(b[0] % 4 * 16 + b[1] / 16),
       Symbol(b[1] % 16 * 4 + b[2] / 64), Symbol(b[2] % 64)] + Encode(b[3..])
  }

  /** The characters that the decoder skips. */
  const LINE_BREAKS := {'\r', '\n'}

  function First(u: Sextet, v: Sextet): byte { u * 4 + v / 16 }
  function Second(v: Sextet, w: Sextet): byte { v % 16 * 16 + w / 4 }
  function Third(w: Sextet, x: Sextet): byte { w % 4 * 64 + x }

  function DecodeQuanta(s: string): Option<Bytes> {
    if s == "" then Some([])
    else if |s| < 4 || !IsSymbol(s[0]) || !IsSymbol(s[1]) then None
    else
      var first := First(Value(s[0]), Value(s[1]));
      if s[2] == '=' then
        if s[3] == '=' && |s| == 4 then Some([first]) else None
      else if !IsSymbol(s[2]) then None
      else
        var second := Second(Value(s[1]), Value(s[2]));
        if s[3] == '=' then
          if |s| == 4 then Some([first, second]) else None
        else if !IsSymbol(s[3]) then None
        else
          match DecodeQuanta(s[4..])
          case None => None
          case Some(rest) => Some([first, second, Third(Value(s[2]), Value(s[3]))] + rest)
  }

  /** StdEncoding.DecodeString; None is CorruptInputError. */
  function Decode(s: string): Option<Bytes> {
    DecodeQuanta(Without(s, LINE_BREAKS))
  }

  // ---- round trip -------------------------------------------------------------

  lemma {:induction false} EncodeChars(b: Bytes)
    ensures forall c :: c in Encode(b) ==> IsSymbol(c) || c == '='
  {
    if |b| < 3 {
    } else {
      EncodeChars(b[3..]);
    }
  }

  lemma {:induction false} EncodeLength(b: Bytes)
    ensures |Encode(b)| == (|b| + 2) / 3 * 4
  {
    if |b| >= 3 {
      EncodeLength(b[3..]);
      assert |Encode(b)| == 4 + |Encode(b[3..])|;
      assert (|b| + 2) / 3 == (|b| - 3 + 2) / 3 + 1;
    } else {
      assert (|b| + 2) / 3 == if |b| == 0 then 0 else 1;
    }
  }

  /** Four sextets carry three bytes, and three bytes four sextets. */
  lemma PackUnpack(a: byte, b: byte, c: byte)
    ensures First(a / 4, a % 4 * 16 + b / 16) == a
    ensures Second(a % 4 * 16 + b / 16, b % 16 * 4 + c / 64) == b
    ensures Third(b % 16 * 4 + c / 64, c % 64) == c
  {
  }

  lemma UnpackPack(u: Sextet, v: Sextet, w: Sextet, x: Sextet)
    ensures First(u, v) / 4 == u
    ensures First(u, v) % 4 * 16 + Second(v, w) / 16 == v
    ensures Second(v, w) % 16 * 4 + Third(w, x) / 64 == w
    ensures Third(w, x) % 64 == x
    ensures v % 16 == 0 <==> First(u, v) % 4 * 16 == v
    ensures w % 4 == 0 <==> Second(v, w) % 16 * 4 == w
  {
  }

  /** The decoder reads a full quantum and goes on. */
  lemma DecodeFull(u: Sextet, v: Sextet, w: Sextet, x: Sextet, rest: string)
    requires DecodeQuanta(rest).Some?
    ensures DecodeQuanta([Symbol(u), Symbol(v), Symbol(w), Symbol(x)] + rest)
         == Some([First(u, v), Second(v, w), Third(w, x)] + DecodeQuanta(rest).value)
  {
    var s := [Symbol(u), Symbol(v), Symbol(w), Symbol(x)] + rest;
    SymbolValue(u);
    SymbolValue(v);
    SymbolValue(w);
    SymbolValue(x);
    assert s[4..] == rest;
    NextQuantum(s);
  }

  /** One unfolding of the decoder at an unpadded quantum. */
  lemma NextQuantum(s: string)
    requires |s| >= 4 && IsSymbol(s[0]) && IsSymbol(s[1]) && IsSymbol(s[2]) && IsSymbol(s[3])
    requires DecodeQuanta(s[4..]).Some?
    ensures DecodeQuanta(s)
         == Some([First(Value(s[0]), Value(s[1])), Second(Value(s[1]), Value(s[2])), Third(Value(s[2]), Value(s[3]))]
                 + DecodeQuanta(s[4..]).value)
  {
  }

  lemma DecodeOne(u: Sextet, v: Sextet)
    ensures DecodeQuanta([Symbol(u), Symbol(v), '=', '=']) == Some([First(u, v)])
  {
    SymbolValue(u);
    SymbolValue(v);
  }

  lemma DecodeTwo(u: Sextet, v: Sextet, w: Sextet)
    ensures DecodeQuanta([Symbol(u), Symbol(v), Symbol(w), '=']) == Some([First(u, v), Second(v, w)])
  {
    SymbolValue(u);
    SymbolValue(v);
    SymbolValue(w);
  }

  lemma {:induction false} QuantaRoundTrip(b: Bytes)
    ensures DecodeQuanta(Encode(b)) == Some(b)
  {
    if |b| < 3 {
      ShortRoundTrip(b);
    } else {
      QuantaRoundTrip(b[3..]);
      var t := [b[0], b[1], b[2]] + b[3..];
      assert b == t;
      TripleRoundTrip(b[0], b[1], b[2], b[3..]);
      assert DecodeQuanta(Encode(t)) == Some(t);
    }
  }

  lemma ShortRoundTrip(b: Bytes)
    requires |b| < 3
    ensures DecodeQuanta(Encode(b)) == Some(b)
  {
    if |b| == 1 {
      assert b == [b[0]];
      OneRoundTrip(b[0]);
    } else if |b| == 2 {
      assert b == [b[0], b[1]];
      TwoRoundTrip(b[0], b[1]);
    }
  }

  lemma OneRoundTrip(a: byte)
    ensures DecodeQuanta(Encode([a])) == Some([a])
  {
    PackUnpack(a, 0, 0);
    DecodeOne(a / 4, a % 4 * 16);
  }

  lemma TwoRoundTrip(a: byte, b: byte)
    ensures DecodeQuanta(Encode([a, b])) == Some([a, b])
  {
    PackUnpack(a, b, 0);
    DecodeTwo(a / 4, a % 4 * 16 + b / 16, b % 16 * 4);
  }

  lemma TripleRoundTrip(a: byte, b: byte, c: byte, rest: Bytes)
    requires DecodeQuanta(Encode(rest)) == Some(rest)
    ensures DecodeQuanta(Encode([a, b, c] + rest)) == Some([a, b, c] + rest)
  {
    EncodeTriple(a, b, c, rest);
    PackUnpack(a, b, c);
    DecodeFull(a / 4, a % 4 * 16 + b / 16, b % 16 * 4 + c / 64, c % 64, Encode(rest));
  }

  /** Every byte string, of every length modulo three, survives the round trip. */
  lemma RoundTrip(b: Bytes)
    ensures Decode(Encode(b)) == Some(b)
  {
    EncodeChars(b);
    WithoutNothing(Encode(b), LINE_BREAKS);
    QuantaRoundTrip(b);
  }

  /** The alphabet of table 1: capitals, small letters, digits, plus and slash. */
  lemma Alphabet(i: Sextet)
    ensures i < 26 ==> Symbol(i) == "ABCDEFGHIJKLMNOPQRSTUVWXYZ"[i]
    ensures 26 <= i < 52 ==> Symbol(i) == "abcdefghijklmnopqrstuvwxyz"[i - 26]
    ensures 52 <= i < 62 ==> Symbol(i) == "0123456789"[i - 52]
    ensures i >= 62 ==> Symbol(i) == "+/"[i - 62]
  {
  }

  /** The first four symbols carry the first three bytes as one 24-bit number. */
  lemma QuantumBits(a: byte, b: byte, c: byte, rest: Bytes)
    ensures var e := Encode([a, b, c] + rest);
            && |e| >= 4 && e[4..] == Encode(rest)
            && IsSymbol(e[0]) && IsSymbol(e[1]) && IsSymbol(e[2]) && IsSymbol(e[3])
            && ((Value(e[0]) * 64 + Value(e[1])) * 64 + Value(e[2])) * 64 + Value(e[3]) == (a * 256 + b) * 256 + c
  {
    EncodeTriple(a, b, c, rest);
    var u, v, w, x := a / 4, a % 4 * 16 + b / 16, b % 16 * 4 + c / 64, c % 64;
    SymbolValue(u);
    SymbolValue(v);
    SymbolValue(w);
    SymbolValue(x);
    hide Symbol, Value, IsSymbol, Encode;
    PackBits(a, b, c);
  }

  lemma PackBits(a: byte, b: byte, c: byte)
    ensures ((a / 4 * 64 + (a % 4 * 16 + b / 16)) * 64 + (b % 16 * 4 + c / 64)) * 64 + c % 64 == (a * 256 + b) * 256 + c
  {
    assert a == a / 4 * 4 + a % 4 && b == b / 16 * 16 + b % 16 && c == c / 64 * 64 + c % 64;
  }

  /** The test vectors of section 10: "", "f", "fo", "foo", "foob", "fooba", "foobar". */
  lemma TestVectors()
    ensures Encode([]) == "" && Encode([102]) == "Zg==" && Encode([102, 111]) == "Zm8="
    ensures Encode([102, 111, 111]) == "Zm9v" && Encode([102, 111, 111, 98]) == "Zm9vYg=="
    ensures Encode([102, 111, 111, 98, 97]) == "Zm9vYmE=" && Encode([102, 111, 111, 98, 97, 114]) == "Zm9vYmFy"
  {
    hide Encode;
    EncodeTriple(102, 111, 111, []);
    EncodeTriple(102, 111, 111, [98]);
    EncodeTriple(102, 111, 111, [98, 97]);
    EncodeTriple(102, 111, 111, [98, 97, 114]);
    EncodeTriple(98, 97, 114, []);
    assert [102, 111, 111] + [] == [102, 111, 111] && [98, 97, 114] + [] == [98, 97, 114];
    assert [102, 111, 111] + [98] == [102, 111, 111, 98] && [102, 111, 111] + [98, 97] == [102, 111, 111, 98, 97];
    assert [102, 111, 111] + [98, 97, 114] == [102, 111, 111, 98, 97, 114];
    ShortVectors();
  }

  lemma ShortVectors()
    ensures Encode([]) == "" && Encode([102]) == "Zg==" && Encode([102, 111]) == "Zm8="
    ensures Encode([98]) == "Yg==" && Encode([98, 97]) == "YmE="
  {
  }

  // ---- what the decoder accepts -----------------------------------------------

  /** The unused low bits of a padded last quantum are zero. */
  predicate ZeroPadBits(s: string)
    requires DecodeQuanta(s).Some?
  {
    if s == "" then true
    else if s[2] == '=' then Value(s[1]) % 16 == 0
    else if s[3] == '=' then Value(s[2]) % 4 == 0
    else ZeroPadBits(s[4..])
  }

  lemma {:induction false} QuantaCanonical(s: string)
    requires DecodeQuanta(s).Some?
    ensures Encode(DecodeQuanta(s).value) == s <==> ZeroPadBits(s)
  {
    if s == "" {
    } else if s[2] == '=' {
      OnePadded(s);
    } else if s[3] == '=' {
      TwoPadded(s);
    } else {
      QuantaCanonical(s[4..]);
      EncodeFull(s);
    }
  }

  /** Re-encoding a full quantum gives its four characters back. */
  lemma EncodeQuantum(s: string)
    requires DecodeQuanta(s).Some? && s != "" && s[2] != '=' && s[3] != '='
    ensures Encode(DecodeQuanta(s).value) == s[..4] + Encode(DecodeQuanta(s[4..]).value)
  {
    NextQuantum(s);
    hide DecodeQuanta, Encode;
    var u, v, w, x := Value(s[0]), Value(s[1]), Value(s[2]), Value(s[3]);
    EncodeTriple(First(u, v), Second(v, w), Third(w, x), DecodeQuanta(s[4..]).value);
    UnpackPack(u, v, w, x);
    hide First, Second, Third, Symbol, Value;
    ValueSymbol(s[0]);
    ValueSymbol(s[1]);
    ValueSymbol(s[2]);
    ValueSymbol(s[3]);
    assert s[..4] == [s[0], s[1], s[2], s[3]];
  }

  lemma EncodeFull(s: string)
    requires DecodeQuanta(s).Some? && s != "" && s[2] != '=' && s[3] != '='
    ensures Encode(DecodeQuanta(s).value) == s <==> Encode(DecodeQuanta(s[4..]).value) == s[4..]
  {
    EncodeQuantum(s);
    NextQuantum(s);
    hide DecodeQuanta, Encode;
    var e := Encode(DecodeQuanta(s).value);
    assert e[4..] == Encode(DecodeQuanta(s[4..]).value);
    assert s == s[..4] + s[4..];
  }

  /** One unfolding of the encoder. */
  lemma EncodeTriple(a: byte, b: byte, c: byte, rest: Bytes)
    ensures Encode([a, b, c] + rest)
         == [Symbol(a / 4), Symbol(a % 4 * 16 + b / 16), Symbol(b % 16 * 4 + c / 64), Symbol(c % 64)] + Encode(rest)
  {
    assert ([a, b, c] + rest)[3..] == rest;
  }

  lemma OnePadded(s: string)
    requires DecodeQuanta(s).Some? && s != "" && s[2] == '='
    ensures Encode(DecodeQuanta(s).value) == s <==> Value(s[1]) % 16 == 0
  {
    var u, v := Value(s[0]), Value(s[1]);
    UnpackPack(u, v, 0, 0);
    ValueSymbol(s[0]);
    ValueSymbol(s[1]);
    SymbolValue(First(u, v) % 4 * 16);
    var e := Encode(DecodeQuanta(s).value);
    assert e == [s[0], Symbol(First(u, v) % 4 * 16), '=', '='];
    assert s == [s[0], s[1], '=', '='];
    assert e == s <==> e[1] == s[1];
  }

  lemma TwoPadded(s: string)
    requires DecodeQuanta(s).Some? && s != "" && s[2] != '=' && s[3] == '='
    ensures Encode(DecodeQuanta(s).value) == s <==> Value(s[2]) % 4 == 0
  {
    var u, v, w := Value(s[0]), Value(s[1]), Value(s[2]);
    UnpackPack(u, v, w, 0);
    ValueSymbol(s[0]);
    ValueSymbol(s[1]);
    ValueSymbol(s[2]);
    SymbolValue(Second(v, w) % 16 * 4);
    var e := Encode(DecodeQuanta(s).value);
    assert e == [s[0], s[1], Symbol(Second(v, w) % 16 * 4), '='];
    assert s == [s[0], s[1], s[2], '='];
    assert e == s <==> e[2] == s[2];
  }

  /** An accepted text is the encoding of its bytes exactly when it holds no line
      break and its unused bits are zero. */
  lemma Canonical(s: string)
    requires Decode(s).Some?
    ensures Encode(Decode(s).value) == s <==>
            (forall c :: c in s ==> c !in LINE_BREAKS) && ZeroPadBits(Without(s, LINE_BREAKS))
  {
    var t := Without(s, LINE_BREAKS);
    QuantaCanonical(t);
    EncodeChars(Decode(s).value);
    WithoutFixed(s, LINE_BREAKS);
    if Encode(Decode(s).value) == s {
      WithoutNothing(s, LINE_BREAKS);
    }
  }

  /** A carriage return or a line feed anywhere makes no difference. */
  lemma LineBreaksSkipped(s: string, t: string)
    ensures Decode(s + ['\n'] + t) == Decode(s + t) && Decode(s + ['\r'] + t) == Decode(s + t)
  {
    OneSkipped(s, '\n', t);
    OneSkipped(s, '\r', t);
  }

  lemma OneSkipped(s: string, c: char, t: string)
    requires c in LINE_BREAKS
    ensures Decode(s + [c] + t) == Decode(s + t)
  {
    WithoutConcat(s + [c], t, LINE_BREAKS);
    WithoutConcat(s, [c], LINE_BREAKS);
    WithoutConcat(s, t, LINE_BREAKS);
    WithoutAll([c], LINE_BREAKS);
    assert Without(s + [c] + t, LINE_BREAKS) == Without(s + t, LINE_BREAKS);
  }

  lemma {:induction false} QuantaForeign(s: string, c: char)
    requires c in s && !IsSymbol(c) && c != '='
    ensures DecodeQuanta(s).None?
  {
    if |s| < 4 || c in s[..4] {
    } else {
      assert s == s[..4] + s[4..];
      QuantaForeign(s[4..], c);
    }
  }

  /** Any other character outside the alphabet makes the text invalid. */
  lemma DecodeForeign(s: string, c: char)
    requires c in s && !IsSymbol(c) && c !in {'=', '\r', '\n'}
    ensures Decode(s).None?
  {
    WithoutChars(s, LINE_BREAKS);
    QuantaForeign(Without(s, LINE_BREAKS), c);
  }
}

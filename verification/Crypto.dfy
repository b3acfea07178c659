/** internal/crypto: the field cipher, the blind index and the document codes.
    AES-GCM and HMAC-SHA256 are parameters: functions about which only the stated
    algebraic facts are known. */
module Crypto {
  import opened Wrappers
  import opened Utf8
  import opened Text
  import Base64
  import Counting

  // ---- Cipher -----------------------------------------------------------------

  const NONCE_SIZE := 12
  const TAG_SIZE := 16

  type Nonce = n: Bytes | |n| == NONCE_SIZE witness [0, 0, 0, 0, 0, 0, 0, 0, 0, 0, 0, 0]

  /** AES-256-GCM under the configured key (NIST SP 800-38D): `seal` returns the
      ciphertext followed by the tag. */
  datatype Aead = Aead(seal: (Bytes, Bytes) -> Bytes, open: (Bytes, Bytes) -> Option<Bytes>) {
    ghost predicate Valid() {
      forall n: Bytes, p: Bytes :: |n| == NONCE_SIZE ==>
        && |seal(n, p)| == |p| + TAG_SIZE
        && open(n, seal(n, p)) == Some(p)
    }
  }

  datatype CryptoError = NoEntropy | InvalidBase64 | TooShort | AuthenticationFailed

  /** base64(nonce || ciphertext || tag); None is a failing random source. */
  function Encrypt(a: Aead, plaintext: Bytes, nonce: Option<Nonce>): Result<string, CryptoError> {
    if plaintext == [] then Ok("")
    else match nonce
      case None => Err(NoEntropy)
      case Some(n) => Ok(Base64.Encode(n + a.seal(n, plaintext)))
  }

  function Decrypt(a: Aead, encoded: string): Result<Bytes, CryptoError> {
    if encoded == "" then Ok([])
    else match Base64.Decode(encoded)
      case None => Err(InvalidBase64)
      case Some(sealed) =>
        if |sealed| < NONCE_SIZE then Err(TooShort)
        else match a.open(sealed[..NONCE_SIZE], sealed[NONCE_SIZE..])
          case None => Err(AuthenticationFailed)
          case Some(p) => Ok(p)
  }

  /** Whatever was encrypted is read back, and the empty text is the only one
      stored as the empty text. */
  lemma DecryptEncrypt(a: Aead, plaintext: Bytes, nonce: Option<Nonce>)
    requires a.Valid()
    ensures Encrypt(a, plaintext, nonce).Ok? <==> plaintext == [] || nonce.Some?
    ensures Encrypt(a, plaintext, nonce).Ok? ==>
              var e := Encrypt(a, plaintext, nonce).value;
              && Decrypt(a, e) == Ok(plaintext)
              && (e == "" <==> plaintext == [])
              && |e| == if plaintext == [] then 0 else (NONCE_SIZE + |plaintext| + TAG_SIZE + 2) / 3 * 4
  {
    if plaintext != [] && nonce.Some? {
      var n := nonce.value;
      var sealed := n + a.seal(n, plaintext);
      Base64.EncodeLength(sealed);
      Base64.RoundTrip(sealed);
      assert sealed[..NONCE_SIZE] == n && sealed[NONCE_SIZE..] == a.seal(n, plaintext);
    }
  }

  /** The stored text is base64 of the nonce, followed by what the cipher returns. */
  lemma EncryptLayout(a: Aead, plaintext: Bytes, nonce: Nonce)
    requires a.Valid() && plaintext != []
    ensures Encrypt(a, plaintext, Some(nonce)).Ok?
    ensures Base64.Decode(Encrypt(a, plaintext, Some(nonce)).value) == Some(nonce + a.seal(nonce, plaintext))
  {
    Base64.RoundTrip(nonce + a.seal(nonce, plaintext));
  }

  /** Reading any bytes from the column: none are the empty text, fewer than the
      nonce's twelve are too short, and the rest is for the cipher to accept. */
  lemma DecryptBytes(a: Aead, b: Bytes)
    ensures b == [] ==> Decrypt(a, Base64.Encode(b)) == Ok([])
    ensures 0 < |b| < 12 ==> Decrypt(a, Base64.Encode(b)) == Err(TooShort)
    ensures |b| >= 12 ==> match a.open(b[..12], b[12..])
                          case None => Decrypt(a, Base64.Encode(b)) == Err(AuthenticationFailed)
                          case Some(p) => Decrypt(a, Base64.Encode(b)) == Ok(p)
  {
    Base64.RoundTrip(b);
    Base64.EncodeLength(b);
    assert b != [] ==> |Base64.Encode(b)| > 0;
  }

  /** A text with a character that base64 does not use is rejected as such. */
  lemma DecryptForeign(a: Aead, encoded: string, c: char)
    requires c in encoded && !Base64.IsSymbol(c) && c !in {'=', '\r', '\n'}
    ensures Decrypt(a, encoded) == Err(InvalidBase64)
  {
    Base64.DecodeForeign(encoded, c);
  }

  // ---- BlindIndex -------------------------------------------------------------

  /** An HMAC-SHA256 under a fixed key: 32 bytes for every message (RFC 2104). */
  const DIGEST_SIZE := 32

  type Mac = Bytes -> Bytes

  ghost predicate ValidMac(mac: Mac) {
    forall m :: |mac(m)| == DIGEST_SIZE
  }

  function HexDigit(n: int): char
    requires 0 <= n < 16
  {
    "0123456789abcdef"[n]
  }

  /** hex.EncodeToString */
  function Hex(b: Bytes): string {
    if b == [] then "" else [HexDigit(b[0] / 16), HexDigit(b[0] % 16)] + Hex(b[1..])
  }

  /** Two lower-case digits for each byte, the high half first. */
  lemma {:induction false} HexText(b: Bytes, i: nat)
    requires i < |b|
    ensures |Hex(b)| == 2 * |b|
    ensures Hex(b)[2 * i] == "0123456789abcdef"[b[i] / 16]
    ensures Hex(b)[2 * i + 1] == "0123456789abcdef"[b[i] % 16]
  {
    HexLength(b);
    if i == 0 {
    } else {
      HexText(b[1..], i - 1);
      HexLength(b[1..]);
      assert Hex(b)[2..] == Hex(b[1..]);
      assert Hex(b)[2 * i] == Hex(b)[2..][2 * (i - 1)] && Hex(b)[2 * i + 1] == Hex(b)[2..][2 * (i - 1) + 1];
    }
  }

  lemma {:induction false} HexLength(b: Bytes)
    ensures |Hex(b)| == 2 * |b|
  {
    if b == [] {
    } else {
      HexLength(b[1..]);
    }
  }

  lemma HexDigitInjective(m: int, n: int)
    requires 0 <= m < 16 && 0 <= n < 16 && HexDigit(m) == HexDigit(n)
    ensures m == n
  {
  }

  lemma {:induction false} HexInjective(b: Bytes, e: Bytes)
    requires Hex(b) == Hex(e)
    ensures b == e
  {
    if b == [] || e == [] {
    } else {
      assert Hex(b)[0] == Hex(e)[0] && Hex(b)[1] == Hex(e)[1];
      HexDigitInjective(b[0] / 16, e[0] / 16);
      HexDigitInjective(b[0] % 16, e[0] % 16);
      assert Hex(b)[2..] == Hex(b[1..]) && Hex(e)[2..] == Hex(e[1..]);
      HexInjective(b[1..], e[1..]);
      assert b == [b[0]] + b[1..] && e == [e[0]] + e[1..];
    }
  }

  /** The characters that the replacer deletes. */
  const PUNCTUATION := {' ', '-', '(', ')', '+'}

  function Normalize(cm: CaseMap, v: string): string {
    Without(Trim(MapChars(cm.lower, v)), PUNCTUATION)
  }

  /** What normalising does: the lower-cased text loses its outer white space, and then
      exactly the blanks, dashes, brackets and plus signs; everything else stays, in
      order. */
  lemma NormalizeMeaning(cm: CaseMap, v: string) returns (a: string, t: string, b: string, at: seq<nat>)
    ensures seq(|v|, i requires 0 <= i < |v| => cm.lower(v[i])) == a + t + b
    ensures (forall i :: 0 <= i < |a| ==> IsSpace(a[i])) && (forall i :: 0 <= i < |b| ==> IsSpace(b[i]))
    ensures t == "" || (!IsSpace(t[0]) && !IsSpace(t[|t| - 1]))
    ensures KeptAt(t, Normalize(cm, v), {' ', '-', '(', ')', '+'}, at)
  {
    var low := MapChars(cm.lower, v);
    assert low == seq(|v|, i requires 0 <= i < |v| => cm.lower(v[i]));
    a, b := TrimSplit(low);
    t := Trim(low);
    at := WithoutKeeps(t, PUNCTUATION);
  }

  /** A text without outer white space and without any of the five characters. */
  ghost predicate Unmarked(v: string) {
    && (v == "" || (!IsSpace(v[0]) && !IsSpace(v[|v| - 1])))
    && forall i :: 0 <= i < |v| ==> v[i] != ' ' && v[i] != '-' && v[i] != '(' && v[i] != ')' && v[i] != '+'
  }

  /** Such a text only changes its case: dots, signs and letters of an address all
      count. */
  lemma UnmarkedOnlyLowers(cm: CaseMap, v: string)
    requires cm.Valid() && Unmarked(v)
    ensures |Normalize(cm, v)| == |v| && forall i :: 0 <= i < |v| ==> Normalize(cm, v)[i] == cm.lower(v[i])
  {
    var low := MapChars(cm.lower, v);
    TrimTight(low);
    forall c | c in low
      ensures c !in PUNCTUATION
    {
      var i :| 0 <= i < |low| && low[i] == c;
      assert !IsMark(v[i]);
      assert !IsMark(cm.lower(v[i]));
    }
    WithoutNothing(low, PUNCTUATION);
  }

  /** Two such texts that differ in more than case have different normal forms. */
  lemma UnmarkedDiffer(cm: CaseMap, v: string, w: string)
    requires cm.Valid() && Unmarked(v) && Unmarked(w)
    requires |v| != |w| || exists i :: 0 <= i < |v| && cm.lower(v[i]) != cm.lower(w[i])
    ensures Normalize(cm, v) != Normalize(cm, w)
  {
    UnmarkedOnlyLowers(cm, v);
    UnmarkedOnlyLowers(cm, w);
    if |v| == |w| {
      var i :| 0 <= i < |v| && cm.lower(v[i]) != cm.lower(w[i]);
      assert Normalize(cm, v)[i] != Normalize(cm, w)[i];
    }
  }

  /** The characters of formatted numbers and dates, and the bar between them. */
  predicate PlainChar(c: char) {
    IsDigit(c) || c == ' ' || c == '-' || c == '+' || c == '|'
  }

  /** On such text lower-casing does nothing and trimming only removes what the
      replacer removes anyway. */
  lemma NormalizePlain(cm: CaseMap, v: string)
    requires cm.Valid()
    requires forall c :: c in v ==> PlainChar(c)
    ensures Normalize(cm, v) == Without(v, PUNCTUATION)
  {
    forall i | 0 <= i < |v|
      ensures cm.lower(v[i]) == v[i]
    {
      assert v[i] in v;
    }
    assert MapChars(cm.lower, v) == v;
    WithoutTrim(v, PUNCTUATION);
  }

  /** Lower-casing twice is lower-casing once. */
  ghost predicate LowerStable(cm: CaseMap) {
    forall c: char :: cm.lower(cm.lower(c)) == cm.lower(c)
  }

  /** A white-space character that the replacer keeps, with nothing but deleted
      characters between it and one end of the trimmed text. */
  predicate HiddenEdge(t: string) {
    exists i :: 0 <= i < |t| && EdgeAt(t, i)
  }

  predicate EdgeAt(t: string, i: int)
    requires 0 <= i < |t|
  {
    && IsSpace(t[i]) && t[i] !in PUNCTUATION
    && ((forall c :: c in t[..i] ==> c in PUNCTUATION) || (forall c :: c in t[i + 1..] ==> c in PUNCTUATION))
  }

  lemma {:induction false} FirstKept(t: string, drop: set<char>) returns (i: nat)
    requires Without(t, drop) != ""
    ensures i < |t| && t[i] == Without(t, drop)[0] && t[i] !in drop && forall c :: c in t[..i] ==> c in drop
  {
    if t[0] in drop {
      i := FirstKept(t[1..], drop);
      i := i + 1;
      assert t[..i] == [t[0]] + t[1..][..i - 1];
    } else {
      i := 0;
    }
  }

  lemma {:induction false} LastKept(t: string, drop: set<char>) returns (i: nat)
    requires Without(t, drop) != ""
    ensures i < |t| && t[i] == Without(t, drop)[|Without(t, drop)| - 1] && t[i] !in drop
    ensures forall c :: c in t[i + 1..] ==> c in drop
  {
    var k := |t| - 1;
    assert t == t[..k] + [t[k]];
    WithoutConcat(t[..k], [t[k]], drop);
    if t[k] in drop {
      i := LastKept(t[..k], drop);
      assert t[i + 1..] == t[..k][i + 1..] + [t[k]];
    } else {
      i := k;
    }
  }

  /** The stripped text has a space at an end exactly when there is a hidden edge. */
  lemma StrippedEdges(t: string)
    ensures Tight(Without(t, PUNCTUATION)) <==> !HiddenEdge(t)
  {
    var n := Without(t, PUNCTUATION);
    if HiddenEdge(t) {
      var i :| 0 <= i < |t| && EdgeAt(t, i);
      assert t == t[..i] + [t[i]] + t[i + 1..];
      WithoutConcat(t[..i] + [t[i]], t[i + 1..], PUNCTUATION);
      WithoutConcat(t[..i], [t[i]], PUNCTUATION);
      if forall c :: c in t[..i] ==> c in PUNCTUATION {
        WithoutAll(t[..i], PUNCTUATION);
        assert n[0] == t[i];
      } else {
        WithoutAll(t[i + 1..], PUNCTUATION);
        assert n[|n| - 1] == t[i];
      }
    } else if n != "" {
      var i := FirstKept(t, PUNCTUATION);
      var j := LastKept(t, PUNCTUATION);
      assert !EdgeAt(t, i) && !EdgeAt(t, j);
    }
  }

  /** Normalising is not idempotent on every text; it is exactly on those whose
      trimmed form hides no edge space behind deleted characters. */
  lemma NormalizeTwice(cm: CaseMap, v: string)
    requires cm.Valid() && LowerStable(cm)
    ensures Normalize(cm, Normalize(cm, v)) == Normalize(cm, v) <==> !HiddenEdge(Trim(MapChars(cm.lower, v)))
  {
    var low := MapChars(cm.lower, v);
    var t := Trim(low);
    var n := Without(t, PUNCTUATION);
    var a, b := TrimSplit(low);
    WithoutChars(t, PUNCTUATION);
    forall i | 0 <= i < |n|
      ensures cm.lower(n[i]) == n[i]
    {
      assert n[i] in n && n[i] in a + t + b;
      var k :| 0 <= k < |low| && low[k] == n[i];
    }
    assert MapChars(cm.lower, n) == n;
    var x, y := TrimSplit(n);
    assert forall c :: c in Trim(n) ==> c in x + Trim(n) + y;
    WithoutNothing(Trim(n), PUNCTUATION);
    if Tight(n) {
      TrimTight(n);
    }
    TrimIdempotent(n);
    StrippedEdges(t);
  }

  /** For example a dash in front of a tab and a word: the first pass exposes the
      tab, the second drops it. */
  lemma NotIdempotent(cm: CaseMap, dashes: string, tabs: string, word: string)
    requires cm.Valid() && dashes != "" && (forall c :: c in dashes ==> c == '-')
    requires forall c :: c in tabs ==> c == '\t'
    requires word != "" && forall c :: c in word ==> 'a' <= c <= 'z'
    ensures Normalize(cm, dashes + tabs + word) == tabs + word
    ensures Normalize(cm, tabs + word) == word
  {
    var v, tabbed := dashes + tabs + word, tabs + word;
    LowerFixed(cm, v);
    LowerFixed(cm, tabbed);
    assert word[0] in word && word[|word| - 1] in word;
    OuterPass(dashes, tabbed);
    assert v == dashes + tabbed;
    assert Blank(tabs) by {
      assert forall i :: 0 <= i < |tabs| ==> tabs[i] in tabs;
    }
    TrimPadded(tabs, word, "");
    assert tabs + word + "" == tabbed;
    WithoutNothing(word, PUNCTUATION);
  }

  lemma LowerFixed(cm: CaseMap, v: string)
    requires cm.Valid() && forall c :: c in v ==> c == '-' || c == '\t' || 'a' <= c <= 'z'
    ensures MapChars(cm.lower, v) == v
  {
    forall i | 0 <= i < |v|
      ensures cm.lower(v[i]) == v[i]
    {
      assert v[i] in v;
    }
  }

  lemma OuterPass(dashes: string, rest: string)
    requires dashes != "" && (forall c :: c in dashes ==> c == '-')
    requires rest != "" && !IsSpace(rest[|rest| - 1]) && forall c :: c in rest ==> c !in PUNCTUATION
    ensures Without(Trim(dashes + rest), PUNCTUATION) == rest
  {
    var v := dashes + rest;
    assert dashes[0] in dashes && v[0] == dashes[0] && v[|v| - 1] == rest[|rest| - 1];
    TrimTight(v);
    WithoutConcat(dashes, rest, PUNCTUATION);
    WithoutAll(dashes, PUNCTUATION);
    WithoutNothing(rest, PUNCTUATION);
  }

  /** BlindIndex.Hash */
  function Hash(cm: CaseMap, mac: Mac, value: string): string {
    Hex(mac(Encode(Normalize(cm, value))))
  }

  /** The two normalised texts do not collide under the MAC. */
  ghost predicate Apart(mac: Mac, x: string, y: string) {
    mac(Encode(x)) == mac(Encode(y)) ==> Encode(x) == Encode(y)
  }

  /** Two values share an index exactly when they normalise alike, collisions aside. */
  lemma HashEqual(cm: CaseMap, mac: Mac, v: string, w: string)
    ensures Normalize(cm, v) == Normalize(cm, w) ==> Hash(cm, mac, v) == Hash(cm, mac, w)
    ensures Apart(mac, Normalize(cm, v), Normalize(cm, w)) && Hash(cm, mac, v) == Hash(cm, mac, w)
            ==> Normalize(cm, v) == Normalize(cm, w)
  {
    var x, y := Normalize(cm, v), Normalize(cm, w);
    if Apart(mac, x, y) && Hash(cm, mac, v) == Hash(cm, mac, w) {
      HexInjective(mac(Encode(x)), mac(Encode(y)));
      EncodeInjective(x, y);
    }
  }

  /** A fingerprint, character by character: 64 lower-case hexadecimal digits, two for
      each byte of the MAC of the normal form's UTF-8 bytes. */
  lemma HashText(cm: CaseMap, mac: Mac, value: string, i: nat)
    requires ValidMac(mac) && i < 32
    ensures var digest := mac(Encode(Normalize(cm, value)));
            && |Hash(cm, mac, value)| == 64
            && Hash(cm, mac, value)[2 * i] == "0123456789abcdef"[digest[i] / 16]
            && Hash(cm, mac, value)[2 * i + 1] == "0123456789abcdef"[digest[i] % 16]
  {
    hide Hex, Normalize, Encode;
    HexText(mac(Encode(Normalize(cm, value))), i);
  }

  // ---- DocCode ----------------------------------------------------------------

  const CODE_ALPHABET := "0123456789ABCDEFGHJKMNPQRSTVWXYZ"
  const CODE_SYMBOLS := 8

  lemma CodeAlphabet()
    ensures |CODE_ALPHABET| == 32
  {
  }

  function CodeSymbol(b: byte): char {
    CodeAlphabet();
    CODE_ALPHABET[b % 32]
  }

  function CodeSymbols(digest: Bytes, n: nat): (s: string)
    requires n <= |digest|
    ensures |s| == n
    ensures forall i :: 0 <= i < n ==> s[i] == CodeSymbol(digest[i])
  {
    if n == 0 then "" else CodeSymbols(digest, n - 1) + [CodeSymbol(digest[n - 1])]
  }

  function DocCode(mac: Mac, prefix: string, id: string): string
    requires ValidMac(mac)
  {
    "DYD-" + prefix + "-" + CodeSymbols(mac(Encode(prefix + "|" + id)), CODE_SYMBOLS)
  }

  /** The loop of Signer.DocCode, filling its eight-byte array. */
  method ComputeDocCode(mac: Mac, prefix: string, id: string) returns (code: string)
    requires ValidMac(mac)
    ensures code == DocCode(mac, prefix, id)
  {
    var digest := mac(Encode(prefix + "|" + id));
    var b := new char[CODE_SYMBOLS](_ => '0');
    for i := 0 to CODE_SYMBOLS
      invariant b[..i] == CodeSymbols(digest, i)
    {
      b[i] := CodeSymbol(digest[i]);
      assert b[..i + 1] == b[..i] + [b[i]];
    }
    assert b[..] == b[..CODE_SYMBOLS];
    code := "DYD-" + prefix + "-" + b[..];
  }

  /** The alphabet skips I, L, O and U; this reads a symbol back. */
  function CodeValue(c: char): int {
    var n := c as int;
    if c <= '9' then n - 48
    else if c <= 'H' then n - 55
    else if c <= 'K' then n - 56
    else if c <= 'N' then n - 57
    else if c <= 'T' then n - 58
    else n - 59
  }

  lemma CodeSymbolValue(b: byte)
    ensures CodeValue(CodeSymbol(b)) == b % 32
  {
  }

  ghost predicate SameLowBits(d: Bytes, e: Bytes)
    requires |d| >= CODE_SYMBOLS && |e| >= CODE_SYMBOLS
  {
    forall i :: 0 <= i < CODE_SYMBOLS ==> d[i] % 32 == e[i] % 32
  }

  /** The code shows the low five bits of each of the first eight digest bytes,
      not the first forty bits: exactly these decide whether two codes agree. */
  lemma DocCodeEqual(mac: Mac, prefix: string, id: string, id': string)
    requires ValidMac(mac)
    ensures DocCode(mac, prefix, id) == DocCode(mac, prefix, id')
            <==> SameLowBits(mac(Encode(prefix + "|" + id)), mac(Encode(prefix + "|" + id')))
  {
    var d, e := mac(Encode(prefix + "|" + id)), mac(Encode(prefix + "|" + id'));
    var x, y := CodeSymbols(d, CODE_SYMBOLS), CodeSymbols(e, CODE_SYMBOLS);
    var head := "DYD-" + prefix + "-";
    assert (head + x)[|head|..] == x && (head + y)[|head|..] == y;
    forall i | 0 <= i < CODE_SYMBOLS
      ensures x[i] == y[i] <==> d[i] % 32 == e[i] % 32
    {
      CodeSymbolValue(d[i]);
      CodeSymbolValue(e[i]);
    }
    assert DocCode(mac, prefix, id) == head + x && DocCode(mac, prefix, id') == head + y;
    if SameLowBits(d, e) {
      assert x == y;
    } else if x == y {
      assert false;
    }
  }

  /** The code, character by character: after the head it shows the first eight digest
      bytes in order, each as the symbol of its low five bits. */
  lemma DocCodeText(mac: Mac, prefix: string, id: string, k: nat)
    requires ValidMac(mac) && k < 8
    ensures var digest := mac(Encode(prefix + "|" + id));
            var code := DocCode(mac, prefix, id);
            && |code| == |prefix| + 13
            && code[..|prefix| + 5] == "DYD-" + prefix + "-"
            && code[|prefix| + 5 + k] == "0123456789ABCDEFGHJKMNPQRSTVWXYZ"[digest[k] % 32]
  {
    var digest := mac(Encode(prefix + "|" + id));
    var symbols := CodeSymbols(digest, CODE_SYMBOLS);
    var head := "DYD-" + prefix + "-";
    assert DocCode(mac, prefix, id) == head + symbols && |head| == |prefix| + 5;
    assert (head + symbols)[|head| + k] == symbols[k];
  }

  /** What a code shows of a digest, as a number: five bits from each byte. */
  function CodeNumber(digest: Bytes, n: nat): nat
    requires n <= |digest|
  {
    if n == 0 then 0 else CodeNumber(digest, n - 1) * 32 + digest[n - 1] % 32
  }

  /** 32 to the power of n. */
  function CodeCount(n: nat): nat {
    if n == 0 then 1 else 32 * CodeCount(n - 1)
  }

  lemma {:induction false} CodeNumberBelow(digest: Bytes, n: nat)
    requires n <= |digest|
    ensures CodeNumber(digest, n) < CodeCount(n)
  {
    if n == 0 {
    } else {
      CodeNumberBelow(digest, n - 1);
    }
  }

  lemma LastDigit(p: nat, x: nat, q: nat, y: nat)
    requires x < 32 && y < 32 && p * 32 + x == q * 32 + y
    ensures p == q && x == y
  {
  }

  lemma {:induction false} CodeNumberEqual(d: Bytes, e: Bytes, n: nat)
    requires n <= |d| && n <= |e| && CodeNumber(d, n) == CodeNumber(e, n)
    ensures forall i :: 0 <= i < n ==> d[i] % 32 == e[i] % 32
  {
    if n == 0 {
    } else {
      LastDigit(CodeNumber(d, n - 1), d[n - 1] % 32, CodeNumber(e, n - 1), e[n - 1] % 32);
      CodeNumberEqual(d, e, n - 1);
    }
  }

  function NumberOf(mac: Mac, prefix: string, id: string): nat
    requires ValidMac(mac)
  {
    CodeNumber(mac(Encode(prefix + "|" + id)), CODE_SYMBOLS)
  }

  /** There are 32 to the power of 8 codes, so among more ids two share one. */
  lemma CodesRunOut(mac: Mac, prefix: string, ids: seq<string>)
    requires ValidMac(mac) && |ids| > CodeCount(CODE_SYMBOLS)
    ensures exists i, j :: 0 <= i < j < |ids| && DocCode(mac, prefix, ids[i]) == DocCode(mac, prefix, ids[j])
  {
    hide DocCode, CodeCount, CodeNumber;
    var numbers := seq(|ids|, k requires 0 <= k < |ids| => NumberOf(mac, prefix, ids[k]));
    forall k | 0 <= k < |ids|
      ensures numbers[k] < CodeCount(CODE_SYMBOLS)
    {
      CodeNumberBelow(mac(Encode(prefix + "|" + ids[k])), CODE_SYMBOLS);
    }
    Counting.Pigeonhole(numbers, CodeCount(CODE_SYMBOLS));
    var i, j :| 0 <= i < j < |ids| && numbers[i] == numbers[j];
    CodeNumberEqual(mac(Encode(prefix + "|" + ids[i])), mac(Encode(prefix + "|" + ids[j])), CODE_SYMBOLS);
    DocCodeEqual(mac, prefix, ids[i], ids[j]);
  }

  lemma CodeSymbolShape(b: byte)
    ensures var c := CodeSymbol(b); '0' <= c <= '9' || 'A' <= c <= 'Z'
  {
  }

  /** Admit-card codes are fifteen printable characters, unchanged by upper-casing
      and trimming, so a stored code equals the query that its own text gives. */
  lemma DocCodeShape(cm: CaseMap, mac: Mac, id: string)
    requires cm.Valid() && ValidMac(mac)
    ensures var code := DocCode(mac, "AC", id);
            && |code| == 15
            && code[..7] == "DYD-AC-"
            && Tight(code)
            && MapChars(cm.upper, code) == code
            && Trim(MapChars(cm.upper, code)) == code
  {
    var digest := mac(Encode("AC" + "|" + id));
    var code := DocCode(mac, "AC", id);
    var symbols := CodeSymbols(digest, CODE_SYMBOLS);
    assert code == "DYD-AC-" + symbols;
    forall i | 0 <= i < 15
      ensures cm.upper(code[i]) == code[i] && !IsSpace(code[i])
    {
      if i >= 7 {
        assert code[i] == symbols[i - 7];
        CodeSymbolShape(digest[i - 7]);
      }
    }
    TrimTight(code);
  }
}

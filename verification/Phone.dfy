/** internal/validate: the `bdphone` rule, and what the accepted spellings of a
    number become in the lookup index. */
module Phone {
  import opened Text
  import opened Crypto

  // ---- the recogniser ---------------------------------------------------------

  /** The operators of Go's RE2 syntax that the rule needs, anchored at both ends. */
  datatype Regex =
    | Range(lo: char, hi: char)
    | Then(first: Regex, second: Regex)
    | Either(left: Regex, right: Regex)
    | Maybe(inner: Regex)
    | Times(body: Regex, count: nat)

  predicate Matches(r: Regex, s: string)
    decreases r, 0, |s|
  {
    match r
    case Range(lo, hi) => |s| == 1 && lo <= s[0] <= hi
    case Then(first, second) => exists i | 0 <= i <= |s| :: Matches(first, s[..i]) && Matches(second, s[i..])
    case Either(left, right) => Matches(left, s) || Matches(right, s)
    case Maybe(inner) => s == "" || Matches(inner, s)
    case Times(body, count) => Repeats(body, count, s)
  }

  predicate Repeats(r: Regex, n: nat, s: string)
    decreases r, n + 1, |s|
  {
    if n == 0 then s == ""
    else exists i | 0 <= i <= |s| :: Matches(r, s[..i]) && Repeats(r, n - 1, s[i..])
  }

  function Lit(c: char): Regex { Range(c, c) }

  const DIGIT := Range('0', '9')
  const COUNTRY := Then(Maybe(Lit('+')), Then(Lit('8'), Then(Lit('8'), Lit('0'))))
  const SUBSCRIBER := Then(Lit('1'), Then(Range('3', '9'), Times(DIGIT, 8)))

  /** ^(?:\+?880|0)1[3-9]\d{8}$ */
  const BD_PHONE := Then(Either(COUNTRY, Lit('0')), SUBSCRIBER)

  /** The `bdphone` rule: spaces and dashes are dropped before matching. */
  predicate BdPhone(p: string) {
    Matches(BD_PHONE, Without(Without(p, {' '}), {'-'}))
  }

  // ---- what it accepts --------------------------------------------------------

  const PREFIXES := {"0", "880", "+880"}

  /** The ten digits after the trunk prefix. */
  predicate IsNational(n: string) {
    |n| == 10 && n[0] == '1' && '3' <= n[1] <= '9' && AllDigits(n)
  }

  lemma RepeatsStep(lo: char, hi: char, n: nat, s: string)
    requires n > 0
    ensures Repeats(Range(lo, hi), n, s) <==> s != "" && lo <= s[0] <= hi && Repeats(Range(lo, hi), n - 1, s[1..])
  {
    var r := Range(lo, hi);
    assert forall t :: Matches(r, t) <==> |t| == 1 && lo <= t[0] <= hi;
    if Repeats(r, n, s) {
      var i :| 0 <= i <= |s| && Matches(r, s[..i]) && Repeats(r, n - 1, s[i..]);
      assert i == |s[..i]| == 1;
    }
    if s != "" && lo <= s[0] <= hi && Repeats(r, n - 1, s[1..]) {
      assert Matches(r, s[..1]);
    }
  }

  lemma {:induction false} RepeatsRange(lo: char, hi: char, n: nat, s: string)
    ensures Repeats(Range(lo, hi), n, s) <==> |s| == n && forall i :: 0 <= i < n ==> lo <= s[i] <= hi
  {
    if n == 0 {
    } else {
      RepeatsStep(lo, hi, n, s);
      hide Repeats, Matches;
      if s != "" {
        RepeatsRange(lo, hi, n - 1, s[1..]);
        assert s == [s[0]] + s[1..];
      }
    }
  }

  lemma MatchesLitThen(lo: char, hi: char, r: Regex, s: string)
    ensures Matches(Then(Range(lo, hi), r), s) <==> s != "" && lo <= s[0] <= hi && Matches(r, s[1..])
  {
    if s != "" && lo <= s[0] <= hi && Matches(r, s[1..]) {
      assert Matches(Range(lo, hi), s[..1]);
    }
  }

  lemma NationalSplit(s: string)
    requires |s| >= 2
    ensures IsNational(s) <==>
            s[0] == '1' && '3' <= s[1] <= '9' && |s[2..]| == 8 && AllDigits(s[2..])
  {
    if |s| == 10 {
      assert forall i :: 0 <= i < 8 ==> s[2..][i] == s[i + 2];
      assert forall i :: 2 <= i < 10 ==> s[i] == s[2..][i - 2];
    }
  }

  lemma MatchesTwoThen(tail: Regex, s: string)
    ensures Matches(Then(Range('1', '1'), Then(Range('3', '9'), tail)), s)
            <==> |s| >= 2 && s[0] == '1' && '3' <= s[1] <= '9' && Matches(tail, s[2..])
  {
    MatchesLitThen('1', '1', Then(Range('3', '9'), tail), s);
    if s != "" {
      MatchesLitThen('3', '9', tail, s[1..]);
      if |s| > 1 {
        assert s[1..][1..] == s[2..];
      }
    }
  }

  lemma MatchesTimesDigit(n: nat, s: string)
    ensures Matches(Times(Range('0', '9'), n), s) <==> |s| == n && AllDigits(s)
  {
    RepeatsRange('0', '9', n, s);
  }

  lemma SubscriberShape(s: string)
    ensures Matches(SUBSCRIBER, s) <==> IsNational(s)
  {
    var tail := Times(DIGIT, 8);
    MatchesTwoThen(tail, s);
    if |s| >= 2 {
      MatchesTimesDigit(8, s[2..]);
      NationalSplit(s);
    }
  }

  lemma Match880(s: string)
    ensures Matches(Then(Lit('8'), Then(Lit('8'), Lit('0'))), s) <==> s == "880"
  {
    MatchesLitThen('8', '8', Then(Lit('8'), Lit('0')), s);
    if s != "" {
      MatchesLitThen('8', '8', Lit('0'), s[1..]);
    }
  }

  lemma MatchesMaybeThen(c: char, tail: Regex, s: string)
    ensures Matches(Then(Maybe(Range(c, c)), tail), s)
            <==> Matches(tail, s) || (s != "" && s[0] == c && Matches(tail, s[1..]))
  {
    var r := Maybe(Range(c, c));
    assert s[..0] == "" && s[0..] == s;
    if Matches(tail, s) {
      assert Matches(r, s[..0]) && Matches(tail, s[0..]);
    }
    if s != "" && s[0] == c && Matches(tail, s[1..]) {
      assert Matches(r, s[..1]);
    }
    if Matches(Then(r, tail), s) {
      var i :| 0 <= i <= |s| && Matches(r, s[..i]) && Matches(tail, s[i..]);
      assert i == 0 || Matches(Range(c, c), s[..i]);
    }
  }

  lemma MatchesTrunk(tail: Regex, s: string)
    requires forall t :: Matches(tail, t) <==> t == "880"
    ensures Matches(Either(Then(Maybe(Range('+', '+')), tail), Range('0', '0')), s)
            <==> s in PREFIXES
  {
    MatchesMaybeThen('+', tail, s);
    var plus := Then(Maybe(Range('+', '+')), tail);
    assert Matches(plus, s) <==> s == "880" || s == "+880" by {
      if s != "" {
        assert s == [s[0]] + s[1..];
      }
    }
    assert Matches(Range('0', '0'), s) <==> s == "0";
  }

  lemma PrefixShape(s: string)
    ensures Matches(Either(COUNTRY, Lit('0')), s) <==> s in PREFIXES
  {
    var tail := Then(Lit('8'), Then(Lit('8'), Lit('0')));
    forall t ensures Matches(tail, t) <==> t == "880" {
      Match880(t);
    }
    MatchesTrunk(tail, s);
  }

  ghost predicate Prefixed(raw: string, prefix: string, n: string) {
    prefix in PREFIXES && IsNational(n) && raw == prefix + n
  }

  /** The rule accepts a national number after `0`, `880` or `+880`, with any
      spaces and dashes, and nothing else.  In particular `00880` is refused. */
  lemma BdPhoneShape(p: string)
    ensures BdPhone(p) <==> exists prefix, n :: Prefixed(Without(p, {' ', '-'}), prefix, n)
  {
    var raw := Without(p, {' ', '-'});
    WithoutTwice(p, {' '}, {'-'});
    assert {' '} + {'-'} == {' ', '-'};
    var trunk := Either(COUNTRY, Lit('0'));
    forall s ensures Matches(trunk, s) <==> s in PREFIXES {
      PrefixShape(s);
    }
    forall s ensures Matches(SUBSCRIBER, s) <==> IsNational(s) {
      SubscriberShape(s);
    }
    PhoneCut(trunk, SUBSCRIBER, raw);
  }

  lemma PhoneCut(trunk: Regex, subscriber: Regex, raw: string)
    requires forall s :: Matches(trunk, s) <==> s in PREFIXES
    requires forall s :: Matches(subscriber, s) <==> IsNational(s)
    ensures Matches(Then(trunk, subscriber), raw) <==> exists prefix, n :: Prefixed(raw, prefix, n)
  {
    if Matches(Then(trunk, subscriber), raw) {
      var i :| 0 <= i <= |raw| && Matches(trunk, raw[..i]) && Matches(subscriber, raw[i..]);
      assert raw == raw[..i] + raw[i..];
      assert Prefixed(raw, raw[..i], raw[i..]);
    }
    if prefix, n :| Prefixed(raw, prefix, n) {
      assert raw[..|prefix|] == prefix && raw[|prefix|..] == n;
    }
  }

  /** The text starts with this prefix, and a national number makes up the rest. */
  ghost predicate DialledWith(raw: string, prefix: string) {
    var k := |prefix|;
    && |raw| == k + 10 && raw[..k] == prefix
    && raw[k] == '1' && '3' <= raw[k + 1] <= '9'
    && forall i :: k <= i < k + 10 ==> '0' <= raw[i] <= '9'
  }

  /** The rule in characters: with blanks and dashes deleted the text is 0, 880 or
      +880, then a 1, a digit from 3 to 9, and eight more digits. */
  lemma BdPhoneText(p: string) returns (raw: string, at: seq<nat>)
    ensures KeptAt(p, raw, {' ', '-'}, at)
    ensures BdPhone(p) <==> DialledWith(raw, "0") || DialledWith(raw, "880") || DialledWith(raw, "+880")
  {
    raw := Without(p, {' ', '-'});
    at := WithoutKeeps(p, {' ', '-'});
    RawOfAccepted(p, raw);
  }

  lemma RawOfAccepted(p: string, raw: string)
    requires raw == Without(p, {' ', '-'})
    ensures BdPhone(p) <==> DialledWith(raw, "0") || DialledWith(raw, "880") || DialledWith(raw, "+880")
  {
    BdPhoneShape(p);
    PrefixedText(raw);
    assert BdPhone(p) <==> exists prefix, n :: Prefixed(raw, prefix, n);
  }

  lemma PrefixedText(raw: string)
    ensures (exists prefix, n :: Prefixed(raw, prefix, n))
            <==> DialledWith(raw, "0") || DialledWith(raw, "880") || DialledWith(raw, "+880")
  {
    Dialled(raw, "0");
    Dialled(raw, "880");
    Dialled(raw, "+880");
    hide DialledWith, Prefixed;
    if prefix, n :| Prefixed(raw, prefix, n) {
      PrefixedDialled(raw, prefix, n);
    }
  }

  lemma PrefixedDialled(raw: string, prefix: string, n: string)
    requires Prefixed(raw, prefix, n)
    ensures DialledWith(raw, "0") || DialledWith(raw, "880") || DialledWith(raw, "+880")
  {
    assert raw[|prefix|..] == n && raw[..|prefix|] == prefix;
    Dialled(raw, prefix);
    hide DialledWith;
    if prefix == "0" {
      assert DialledWith(raw, "0");
    } else if prefix == "880" {
      assert DialledWith(raw, "880");
    } else {
      assert prefix == "+880";
      assert DialledWith(raw, "+880");
    }
  }

  lemma Dialled(raw: string, prefix: string)
    requires prefix in PREFIXES
    ensures DialledWith(raw, prefix)
            <==> |raw| >= |prefix| && raw[..|prefix|] == prefix && Prefixed(raw, prefix, raw[|prefix|..])
  {
    var k := |prefix|;
    if |raw| >= k {
      var n := raw[k..];
      assert forall i :: 0 <= i < |n| ==> n[i] == raw[k + i];
      if DialledWith(raw, prefix) {
        assert raw == raw[..k] + n;
        assert IsNational(n);
      }
      if raw[..k] == prefix && Prefixed(raw, prefix, n) {
        forall i | k <= i < k + 10
          ensures '0' <= raw[i] <= '9'
        {
          assert IsDigit(n[i - k]);
        }
      }
    }
  }

  // ---- what an accepted spelling becomes --------------------------------------

  /** The spelling without its formatting. */
  function Raw(p: string): string {
    Without(p, {' ', '-'})
  }

  function National(p: string): string
    requires BdPhone(p)
  {
    var raw := Raw(p);
    if |raw| < 10 then "" else raw[|raw| - 10..]
  }

  /** The spelling starts with the domestic trunk digit, not the country code. */
  predicate Domestic(p: string) {
    Raw(p) != "" && Raw(p)[0] == '0'
  }

  lemma RawShape(p: string) returns (prefix: string)
    requires BdPhone(p)
    ensures prefix in PREFIXES && Raw(p) == prefix + National(p) && IsNational(National(p))
    ensures Domestic(p) <==> prefix == "0"
  {
    BdPhoneShape(p);
    var n;
    prefix, n :| Prefixed(Raw(p), prefix, n);
    assert Raw(p)[|prefix|..] == n;
    assert prefix[0] == Raw(p)[0];
  }

  /** Every number can be typed with every prefix. */
  lemma Spelled(prefix: string, n: string)
    requires prefix in PREFIXES && IsNational(n)
    ensures BdPhone(prefix + n) && National(prefix + n) == n && (Domestic(prefix + n) <==> prefix == "0")
  {
    var p := prefix + n;
    forall c | c in p
      ensures c !in {' ', '-'}
    {
      assert c in prefix || c in n;
    }
    WithoutNothing(p, {' ', '-'});
    assert Prefixed(Raw(p), prefix, n);
    BdPhoneShape(p);
    assert Raw(p)[|Raw(p)| - 10..] == n;
    assert Raw(p)[0] == prefix[0];
  }

  lemma AcceptedChars(p: string)
    requires BdPhone(p)
    ensures forall c :: c in p ==> PlainChar(c) && c != '|'
  {
    var prefix := RawShape(p);
    WithoutChars(p, {' ', '-'});
    forall c | c in p
      ensures PlainChar(c) && c != '|'
    {
      if c !in {' ', '-'} {
        assert c in Raw(p);
        assert c in prefix || c in National(p);
      }
    }
  }

  /** The indexed form of a number: eleven digits `01[3-9]...` for a domestic
      spelling, thirteen digits `8801[3-9]...` for an international one. */
  lemma NormalPhone(cm: CaseMap, p: string)
    requires cm.Valid() && BdPhone(p)
    ensures Normalize(cm, p) == (if Domestic(p) then "0" else "880") + National(p)
    ensures Normalize(cm, p) == Without(p, {' ', '-', '+'})
    ensures IsNational(National(p)) && AllDigits(Normalize(cm, p))
  {
    AcceptedChars(p);
    NormalizePlain(cm, p);
    WithoutTwice(p, {' ', '-'}, {'(', ')', '+'});
    assert {' ', '-'} + {'(', ')', '+'} == PUNCTUATION;
    StripRaw(p, {'(', ')', '+'});
    WithoutTwice(p, {' ', '-'}, {'+'});
    assert {' ', '-'} + {'+'} == {' ', '-', '+'};
    StripRaw(p, {'+'});
  }

  lemma StripRaw(p: string, drop: set<char>)
    requires BdPhone(p)
    requires '+' in drop && forall c :: IsDigit(c) ==> c !in drop
    ensures Without(Raw(p), drop) == (if Domestic(p) then "0" else "880") + National(p)
    ensures IsNational(National(p))
    ensures AllDigits((if Domestic(p) then "0" else "880") + National(p))
  {
    var prefix := RawShape(p);
    WithoutConcat(prefix, National(p), drop);
    WithoutNothing(National(p), drop);
    WithoutPrefix(prefix, drop);
  }

  /** On accepted numbers a second normalisation changes nothing. */
  lemma NormalStable(cm: CaseMap, p: string)
    requires cm.Valid() && BdPhone(p)
    ensures Normalize(cm, Normalize(cm, p)) == Normalize(cm, p)
  {
    hide BdPhone, Normalize, National, Domestic;
    NormalPhone(cm, p);
    DigitsStable(cm, Normalize(cm, p));
  }

  lemma DigitsStable(cm: CaseMap, n: string)
    requires cm.Valid() && AllDigits(n)
    ensures Normalize(cm, n) == n
  {
    assert forall c :: c in n ==> IsDigit(c);
    NormalizePlain(cm, n);
    WithoutNothing(n, PUNCTUATION);
  }

  lemma WithoutPrefix(prefix: string, drop: set<char>)
    requires prefix in PREFIXES && '+' in drop && '0' !in drop && '8' !in drop
    ensures Without(prefix, drop) == if prefix == "0" then "0" else "880"
  {
    if prefix == "+880" {
      assert prefix[1..] == "880";
      WithoutNothing("880", drop);
    } else {
      WithoutNothing(prefix, drop);
    }
  }

  /** Two accepted spellings share an index key exactly when they agree once
      spaces, dashes and plus signs are gone: same national number, same family. */
  lemma SharedKey(cm: CaseMap, p: string, q: string)
    requires cm.Valid() && BdPhone(p) && BdPhone(q)
    ensures Normalize(cm, p) == Normalize(cm, q)
            <==> Without(p, {' ', '-', '+'}) == Without(q, {' ', '-', '+'})
    ensures Normalize(cm, p) == Normalize(cm, q)
            <==> National(p) == National(q) && (Domestic(p) <==> Domestic(q))
  {
    NormalPhone(cm, p);
    NormalPhone(cm, q);
    var x, y := Normalize(cm, p), Normalize(cm, q);
    assert National(p) == x[|x| - 10..] && National(q) == y[|y| - 10..];
  }

  /** The rule's comment promises `008801...`; the pattern refuses it, as it
      refuses everything that starts with two zeros. */
  lemma DoubleZeroRefused(n: string)
    ensures !BdPhone("00" + n)
  {
    var p := "00" + n;
    BdPhoneShape(p);
    assert p[0] == '0' && p[1..][0] == '0';
    var raw := Raw(p);
    var drop := {' ', '-'};
    assert raw == [p[0]] + Without(p[1..], drop);
    assert Without(p[1..], drop) == [p[1..][0]] + Without(p[1..][1..], drop);
    assert |raw| >= 2 && raw[0] == '0' && raw[1] == '0';
    forall prefix, m
      ensures !Prefixed(raw, prefix, m)
    {
      NotAfterTwoZeros(raw, prefix, m);
    }
  }

  lemma NotAfterTwoZeros(raw: string, prefix: string, m: string)
    requires |raw| >= 2 && raw[0] == '0' && raw[1] == '0'
    ensures !Prefixed(raw, prefix, m)
  {
    if |prefix| == 1 && |m| > 0 {
      assert (prefix + m)[1] == m[0];
    } else if |prefix| > 0 {
      assert (prefix + m)[0] == prefix[0];
    }
  }
}

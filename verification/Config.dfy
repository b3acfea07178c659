/** internal/config: key loading and comma-separated lists; internal/middleware:
    the printer of the origin list. */
module Config {
  import opened Wrappers
  import opened Utf8
  import opened Text
  import Base64

  // ---- decodeKey --------------------------------------------------------------

  type Environment = map<string, string>

  /** os.Getenv: an unset variable reads as the empty text. */
  function Getenv(env: Environment, name: string): string {
    if name in env then env[name] else ""
  }

  datatype KeyError = RequiredInProduction | NotBase64 | WrongLength(length: nat)

  const KEY_SIZE := 32
  const PLACEHOLDER := "CHANGE_ME"
  const DEV_SEED := "dev-insecure-key::"

  predicate Unset(raw: string) {
    raw == "" || PLACEHOLDER <= raw
  }

  /** copy into a zeroed 32-byte buffer: cut off or zero-filled to length. */
  function DevKey(name: string): (key: Bytes)
    ensures |key| == KEY_SIZE
  {
    var source := Encode(DEV_SEED + name);
    seq(KEY_SIZE, i requires 0 <= i < KEY_SIZE => if i < |source| then source[i] else 0)
  }

  function DecodeKey(env: Environment, name: string): Result<Bytes, KeyError> {
    var raw := Getenv(env, name);
    if Unset(raw) then
      if Getenv(env, "APP_ENV") == "production" then Err(RequiredInProduction) else Ok(DevKey(name))
    else
      match Base64.Decode(raw)
      case None => Err(NotBase64)
      case Some(key) => if |key| != KEY_SIZE then Err(WrongLength(|key|)) else Ok(key)
  }

  /** decodeKey with its byte buffer. */
  method LoadKey(env: Environment, name: string) returns (r: Result<Bytes, KeyError>)
    ensures r == DecodeKey(env, name)
  {
    var raw := Getenv(env, name);
    if Unset(raw) {
      if Getenv(env, "APP_ENV") == "production" {
        return Err(RequiredInProduction);
      }
      var dev := new byte[KEY_SIZE](_ => 0);
      var source := Encode(DEV_SEED + name);
      var n := if |source| < KEY_SIZE then |source| else KEY_SIZE;
      forall i | 0 <= i < n {
        dev[i] := source[i];
      }
      assert dev[..] == DevKey(name);
      return Ok(dev[..]);
    }
    var decoded := Base64.Decode(raw);
    if decoded.None? {
      return Err(NotBase64);
    }
    if |decoded.value| != KEY_SIZE {
      return Err(WrongLength(|decoded.value|));
    }
    return Ok(decoded.value);
  }

  /** A base64 text is never taken for a placeholder: `_` is not a base64 symbol. */
  lemma EncodedIsSet(key: Bytes)
    requires key != []
    ensures !Unset(Base64.Encode(key))
  {
    var raw := Base64.Encode(key);
    Base64.EncodeLength(key);
    Base64.EncodeChars(key);
    assert PLACEHOLDER[6] == '_';
    assert |raw| > 6 ==> raw[6] in raw;
  }

  /** A configured key is loaded as itself, in development and in production. */
  lemma LoadsConfiguredKey(env: Environment, name: string, key: Bytes)
    requires |key| == KEY_SIZE && Getenv(env, name) == Base64.Encode(key)
    ensures DecodeKey(env, name) == Ok(key)
  {
    EncodedIsSet(key);
    Base64.RoundTrip(key);
  }

  /** NewCipher's only check of its own. */
  predicate CipherAccepts(key: Bytes) {
    |key| == 32
  }

  lemma PlaceholderUndecodable(raw: string)
    requires PLACEHOLDER <= raw
    ensures Base64.Decode(raw).None?
  {
    assert raw[6] == PLACEHOLDER[6] == '_';
    Base64.DecodeForeign(raw, '_');
  }

  /** Every key that is handed out passes the cipher's length check.  In production
      the keys handed out are exactly the 32-byte keys that the variable's text
      decodes to: no such text is mistaken for an unset one.  Elsewhere the same holds
      of every text that is set. */
  lemma KeyFits(env: Environment, name: string, key: Bytes)
    ensures DecodeKey(env, name) == Ok(key) ==> CipherAccepts(key)
    ensures Getenv(env, "APP_ENV") == "production" || !Unset(Getenv(env, name)) ==>
              (DecodeKey(env, name) == Ok(key)
               <==> |key| == KEY_SIZE && Base64.Decode(Getenv(env, name)) == Some(key))
  {
    var raw := Getenv(env, name);
    if PLACEHOLDER <= raw {
      PlaceholderUndecodable(raw);
    }
  }

  /** The three keys that Load fetches. */
  const KEY_NAMES := ["PII_ENCRYPTION_KEY", "BLIND_INDEX_KEY", "VERIFICATION_HMAC_KEY"]

  lemma {:induction false} EncodeAscii(s: string)
    requires forall c :: c in s ==> c < 128 as char
    ensures |Encode(s)| == |s| && forall i :: 0 <= i < |s| ==> Encode(s)[i] == s[i] as int
  {
    if s == "" {
    } else {
      assert s[0] in s && forall c :: c in s[1..] ==> c in s;
      EncodeAscii(s[1..]);
      assert Encode(s) == [s[0] as int] + Encode(s[1..]);
    }
  }

  const HEAD_SIZE := KEY_SIZE - |DEV_SEED|

  /** The first bytes of a name, zero-filled: all that a development key shows of it. */
  function Head(name: Bytes): Bytes {
    seq(HEAD_SIZE, i requires 0 <= i < HEAD_SIZE => if i < |name| then name[i] else 0)
  }

  /** Two names have the same development key exactly when their first fourteen bytes
      agree, shorter names being filled with zeros. */
  lemma DevKeysEqual(m: string, n: string)
    ensures DevKey(m) == DevKey(n) <==> Head(Encode(m)) == Head(Encode(n))
  {
    hide Encode, Head;
    SeedBytes();
    DevKeyParts(m);
    DevKeyParts(n);
    assert Head(Encode(m)) == DevKey(m)[|DEV_SEED|..] && Head(Encode(n)) == DevKey(n)[|DEV_SEED|..];
  }

  lemma SeedBytes()
    ensures |Encode(DEV_SEED)| == |DEV_SEED|
  {
    hide Encode;
    EncodeAscii(DEV_SEED);
  }

  lemma DevKeyParts(name: string)
    ensures DevKey(name) == Encode(DEV_SEED) + Head(Encode(name))
  {
    hide Encode;
    SeedBytes();
    EncodeConcat(DEV_SEED, name);
  }

  /** So the three development keys are three different keys. */
  lemma ThreeDevKeys(i: nat, j: nat)
    requires i < j < |KEY_NAMES|
    ensures DevKey(KEY_NAMES[i]) != DevKey(KEY_NAMES[j])
  {
    hide Encode, DevKey;
    var m, n := KEY_NAMES[i], KEY_NAMES[j];
    DevKeysEqual(m, n);
    EncodeAscii(m);
    EncodeAscii(n);
    assert Head(Encode(m))[0] == m[0] as int && Head(Encode(n))[0] == n[0] as int;
  }

  // ---- splitCSV and joinOrigins -----------------------------------------------

  /** The trimmed, non-empty parts. */
  function Clean(parts: seq<string>): seq<string> {
    if parts == [] then []
    else
      var last := Trim(parts[|parts| - 1]);
      Clean(parts[..|parts| - 1]) + (if last == "" then [] else [last])
  }

  function SplitCSV(s: string): seq<string> {
    if Trim(s) == "" then [] else Clean(Split(s, ','))
  }

  method ComputeSplitCSV(s: string) returns (out: seq<string>)
    ensures out == SplitCSV(s)
  {
    if Trim(s) == "" {
      return [];
    }
    var parts := Split(s, ',');
    out := [];
    for i := 0 to |parts|
      invariant out == Clean(parts[..i])
    {
      var t := Trim(parts[i]);
      assert parts[..i + 1][..i] == parts[..i];
      if t != "" {
        out := out + [t];
      }
    }
    assert parts[..|parts|] == parts;
  }

  method JoinOrigins(origins: seq<string>) returns (out: string)
    ensures out == Join(origins, ',')
  {
    out := "";
    for i := 0 to |origins|
      invariant out == Join(origins[..i], ',')
    {
      if i > 0 {
        out := out + ",";
      }
      out := out + origins[i];
      JoinSnoc(origins[..i], origins[i], ',');
      assert origins[..i] + [origins[i]] == origins[..i + 1];
    }
    assert origins[..|origins|] == origins;
  }

  lemma {:induction false} JoinSnoc(parts: seq<string>, p: string, sep: char)
    ensures Join(parts + [p], sep) == if parts == [] then p else Join(parts, sep) + [sep] + p
  {
    if |parts| == 0 {
    } else {
      JoinSnoc(parts[1..], p, sep);
      assert (parts + [p])[1..] == parts[1..] + [p];
      if |parts| > 1 {
        assert Join(parts, sep) == parts[0] + [sep] + Join(parts[1..], sep);
      }
    }
  }

  /** What a configured list can hold. */
  predicate Item(x: string) {
    x != "" && Tight(x) && Free(x, ',')
  }

  predicate Items(xs: seq<string>) {
    forall i :: 0 <= i < |xs| ==> Item(xs[i])
  }

  lemma TrimFree(p: string, sep: char)
    requires Free(p, sep)
    ensures Free(Trim(p), sep)
  {
    var a, b := TrimSplit(p);
    assert forall c :: c in Trim(p) ==> c in a + Trim(p) + b;
  }

  lemma {:induction false} CleanItems(parts: seq<string>)
    requires forall i :: 0 <= i < |parts| ==> Free(parts[i], ',')
    ensures Items(Clean(parts))
  {
    if parts == [] {
    } else {
      var k := |parts| - 1;
      CleanItems(parts[..k]);
      TrimFree(parts[k], ',');
      TrimIdempotent(parts[k]);
    }
  }

  lemma {:induction false} CleanFixed(parts: seq<string>)
    requires Items(parts)
    ensures Clean(parts) == parts
  {
    if parts == [] {
    } else {
      var k := |parts| - 1;
      assert Items(parts[..k]) && Item(parts[k]);
      CleanFixed(parts[..k]);
      TrimTight(parts[k]);
      assert Clean(parts) == parts[..k] + [parts[k]];
    }
  }

  /** Only trimmed, non-empty, comma-free items ever come out. */
  lemma SplitCSVItems(s: string)
    ensures Items(SplitCSV(s))
  {
    SplitJoin(s, ',');
    CleanItems(Split(s, ','));
  }

  /** Every list of such items survives printing and parsing. */
  lemma SplitOfJoin(xs: seq<string>)
    requires Items(xs)
    ensures SplitCSV(Join(xs, ',')) == xs
  {
    if xs == [] {
    } else {
      var s := Join(xs, ',');
      JoinSplit(xs, ',');
      CleanFixed(xs);
      assert s[0] == xs[0][0];
      VisibleTrim(s);
    }
  }

  lemma VisibleTrim(s: string)
    requires s != "" && !IsSpace(s[0])
    ensures Trim(s) != ""
  {
    var a, b := TrimSplit(s);
    assert Trim(s) == "" ==> s == a + b;
  }

  lemma BlankSplit(s: string)
    requires Trim(s) == ""
    ensures Split(s, ',') == [s]
  {
    var a, b := TrimSplit(s);
    forall c | c in s
      ensures c != ','
    {
      assert c in a || c in b;
    }
    SplitFree(s, ',');
  }

  /** Parsing any setting, printing the list and parsing again gives the same list;
      the early return for blank settings agrees with the loop. */
  lemma SplitCSVStable(s: string)
    ensures SplitCSV(Join(SplitCSV(s), ',')) == SplitCSV(s)
    ensures SplitCSV(s) == Clean(Split(s, ','))
  {
    SplitCSVItems(s);
    SplitOfJoin(SplitCSV(s));
    if Trim(s) == "" {
      BlankSplit(s);
      assert [s][..0] == [];
      assert Clean([s]) == [];
    }
  }

  // ---- what splitCSV finds, piece by piece ------------------------------------

  lemma {:induction false} CleanConcat(a: seq<string>, b: seq<string>)
    ensures Clean(a + b) == Clean(a) + Clean(b)
  {
    if b == [] {
      assert a + b == a;
    } else {
      var k := |b| - 1;
      assert (a + b)[..|a + b| - 1] == a + b[..k] && (a + b)[|a + b| - 1] == b[k];
      CleanConcat(a, b[..k]);
    }
  }

  lemma {:induction false} SplitConcat(s: string, sep: char, t: string)
    ensures Split(s + [sep] + t, sep) == Split(s, sep) + Split(t, sep)
  {
    if s == "" {
      assert (s + [sep] + t)[1..] == t;
    } else {
      var u := s + [sep] + t;
      assert u[0] == s[0] && u[1..] == s[1..] + [sep] + t;
      SplitConcat(s[1..], sep, t);
    }
  }

  /** A comma separates: what the two sides list is listed, the left side first. */
  lemma ListedOneByOne(s: string, t: string)
    ensures SplitCSV(s + [','] + t) == SplitCSV(s) + SplitCSV(t)
  {
    SplitConcat(s, ',', t);
    CleanConcat(Split(s, ','), Split(t, ','));
    SplitCSVStable(s);
    SplitCSVStable(t);
    SplitCSVStable(s + [','] + t);
  }

  lemma BlankFree(a: string)
    requires Blank(a)
    ensures Free(a, ',')
  {
    assert !IsSpace(',');
    assert forall i :: 0 <= i < |a| ==> a[i] != ',';
  }

  /** A single piece lists its item, whatever blanks surround it, and a blank piece
      lists nothing. */
  lemma ListedAlone(a: string, x: string, b: string)
    requires Blank(a) && Blank(b) && (x == "" || Item(x))
    ensures SplitCSV(a + x + b) == if x == "" then [] else [x]
  {
    TrimPadded(a, x, b);
    BlankFree(a);
    BlankFree(b);
    SplitFree(a + x + b, ',');
    SplitCSVStable(a + x + b);
    assert [a + x + b][..0] == [];
    assert Clean([a + x + b]) == Clean([]) + (if x == "" then [] else [x]);
  }

  /** One piece of a setting as it may be typed: an item among blanks, or only blanks. */
  datatype Piece = Entry(before: string, item: string, after: string) | Gap(blanks: string)

  predicate Typed(p: Piece) {
    match p
    case Entry(a, x, b) => Blank(a) && Item(x) && Blank(b)
    case Gap(a) => Blank(a)
  }

  function PieceText(p: Piece): string {
    match p case Entry(a, x, b) => a + x + b case Gap(a) => a
  }

  /** The pieces with commas between them. */
  function Setting(first: Piece, more: seq<Piece>): string {
    if more == [] then PieceText(first)
    else Setting(first, more[..|more| - 1]) + [','] + PieceText(more[|more| - 1])
  }

  function Entries(ps: seq<Piece>): seq<string> {
    if ps == [] then []
    else Entries(ps[..|ps| - 1]) + match ps[|ps| - 1] case Entry(_, x, _) => [x] case Gap(_) => []
  }

  lemma PieceListed(p: Piece)
    requires Typed(p)
    ensures SplitCSV(PieceText(p)) == match p case Entry(_, x, _) => [x] case Gap(_) => []
  {
    match p
    case Entry(a, x, b) => ListedAlone(a, x, b);
    case Gap(a) =>
      ListedAlone(a, "", "");
      assert a + "" + "" == a;
  }

  /** Every list of items, with any blanks around each and any blank pieces between
      them, is read as exactly these items in order. */
  lemma {:induction false} SettingListed(first: Piece, more: seq<Piece>)
    requires Typed(first) && forall k :: 0 <= k < |more| ==> Typed(more[k])
    ensures SplitCSV(Setting(first, more)) == Entries([first] + more)
  {
    hide SplitCSV, Typed, PieceText;
    if more == [] {
      PieceListed(first);
      assert [first] + more == [first] && [first][..0] == [];
    } else {
      var k := |more| - 1;
      SettingListed(first, more[..k]);
      ListedOneByOne(Setting(first, more[..k]), PieceText(more[k]));
      PieceListed(more[k]);
      assert ([first] + more)[..k + 1] == [first] + more[..k] && ([first] + more)[k + 1] == more[k];
    }
  }

  lemma {:induction false} CleanMember(parts: seq<string>, x: string)
    ensures x in Clean(parts) <==> x != "" && exists p :: p in parts && x == Trim(p)
  {
    if parts == [] {
    } else {
      var k := |parts| - 1;
      CleanMember(parts[..k], x);
      assert forall p :: p in parts <==> p in parts[..k] || p == parts[k];
    }
  }

  /** What is listed is what some piece trims to, and all of it. */
  lemma SplitCSVMember(s: string, x: string)
    ensures x in SplitCSV(s) <==> x != "" && exists p :: p in Split(s, ',') && x == Trim(p)
  {
    SplitCSVStable(s);
    CleanMember(Split(s, ','), x);
  }

  // ---- what decodeKey gives and refuses ---------------------------------------

  /** An unset or placeholder variable: refused in production, and elsewhere the text
      "dev-insecure-key::" and the name, cut or zero-filled to 32 bytes. */
  lemma UnsetKey(env: Environment, name: string)
    requires Getenv(env, name) == "" || (|Getenv(env, name)| >= 9 && Getenv(env, name)[..9] == "CHANGE_ME")
    ensures Getenv(env, "APP_ENV") == "production" ==> DecodeKey(env, name) == Err(RequiredInProduction)
    ensures Getenv(env, "APP_ENV") != "production" ==>
              && DecodeKey(env, name).Ok? && |DecodeKey(env, name).value| == 32
              && forall i :: 0 <= i < 32 ==>
                   DecodeKey(env, name).value[i]
                   == if i < 18 then "dev-insecure-key::"[i] as int
                      else if i - 18 < |Encode(name)| then Encode(name)[i - 18] else 0
  {
    hide Encode;
    var raw := Getenv(env, name);
    assert raw == "" || PLACEHOLDER <= raw;
    SeedText();
    DevKeyParts(name);
  }

  lemma SeedText()
    ensures |DEV_SEED| == 18 && |Encode(DEV_SEED)| == 18
    ensures forall i :: 0 <= i < 18 ==> Encode(DEV_SEED)[i] == "dev-insecure-key::"[i] as int
  {
    hide Encode;
    EncodeAscii(DEV_SEED);
  }

  /** A variable that is set: its text must be base64 of 32 bytes, and otherwise the
      error says what is wrong with it, in every environment. */
  lemma SetKey(env: Environment, name: string)
    requires Getenv(env, name) != ""
    requires |Getenv(env, name)| < 9 || Getenv(env, name)[..9] != "CHANGE_ME"
    ensures match Base64.Decode(Getenv(env, name))
            case None => DecodeKey(env, name) == Err(NotBase64)
            case Some(key) => DecodeKey(env, name) == if |key| == 32 then Ok(key) else Err(WrongLength(|key|))
  {
    var raw := Getenv(env, name);
    PrefixText(PLACEHOLDER, raw);
  }

  lemma PrefixText(p: string, s: string)
    ensures p <= s <==> |p| <= |s| && s[..|p|] == p
  {
  }
}

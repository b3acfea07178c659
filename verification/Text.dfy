/** The string operations of the Go standard library that the service uses:
    trimming, per-rune case mapping, removal of characters, splitting at commas. */
module Text {

  /** Unicode White_Space, the set that strings.TrimSpace removes. */
  predicate IsSpace(c: char) {
    var n := c as int;
    9 <= n <= 13 || n == 0x20 || n == 0x85 || n == 0xA0 || n == 0x1680 || 0x2000 <= n <= 0x200A
    || n == 0x2028 || n == 0x2029 || n == 0x202F || n == 0x205F || n == 0x3000
  }

  /** The 25 characters with the property White_Space in PropList.txt of Unicode. */
  lemma SpaceTable(c: char)
    ensures IsSpace(c) <==> c as int in {0x09, 0x0A, 0x0B, 0x0C, 0x0D, 0x20, 0x85, 0xA0, 0x1680, 0x2000, 0x2001, 0x2002,
                                         0x2003, 0x2004, 0x2005, 0x2006, 0x2007, 0x2008, 0x2009, 0x200A, 0x2028, 0x2029,
                                         0x202F, 0x205F, 0x3000}
  {
  }

  predicate IsDigit(c: char) {
    '0' <= c <= '9'
  }

  predicate AllDigits(s: string) {
    forall i :: 0 <= i < |s| ==> IsDigit(s[i])
  }

  // ---- trimming ---------------------------------------------------------------

  function TrimLeft(s: string): string {
    if s != "" && IsSpace(s[0]) then TrimLeft(s[1..]) else s
  }

  function TrimRight(s: string): string {
    if s != "" && IsSpace(s[|s| - 1]) then TrimRight(s[..|s| - 1]) else s
  }

  /** strings.TrimSpace */
  function Trim(s: string): string {
    TrimRight(TrimLeft(s))
  }

  predicate Blank(s: string) {
    forall i :: 0 <= i < |s| ==> IsSpace(s[i])
  }

  /** Nothing to trim: empty, or a non-space at both ends. */
  predicate Tight(s: string) {
    s == "" || (!IsSpace(s[0]) && !IsSpace(s[|s| - 1]))
  }

  lemma {:induction false} TrimLeftPad(a: string, s: string)
    requires Blank(a)
    ensures TrimLeft(a + s) == TrimLeft(s)
  {
    if a == "" {
      assert a + s == s;
    } else {
      assert (a + s)[0] == a[0] && (a + s)[1..] == a[1..] + s;
      TrimLeftPad(a[1..], s);
    }
  }

  lemma {:induction false} TrimRightPad(s: string, b: string)
    requires Blank(b)
    ensures TrimRight(s + b) == TrimRight(s)
  {
    if b == "" {
      assert s + b == s;
    } else {
      var last := |b| - 1;
      assert (s + b)[|s + b| - 1] == b[last] && (s + b)[..|s + b| - 1] == s + b[..last];
      TrimRightPad(s, b[..last]);
    }
  }

  /** Whatever surrounds a tight text, trimming finds it. */
  lemma TrimPadded(a: string, s: string, b: string)
    requires Blank(a) && Blank(b) && Tight(s)
    ensures Trim(a + s + b) == s
  {
    if s == "" {
      assert a + s + b == (a + b) + "";
      TrimLeftPad(a + b, "");
    } else {
      assert a + s + b == a + (s + b);
      TrimLeftPad(a, s + b);
      assert (s + b)[0] == s[0];
      TrimRightPad(s, b);
    }
  }

  lemma {:induction false} TrimLeftSplit(s: string) returns (a: string)
    ensures Blank(a) && s == a + TrimLeft(s)
    ensures TrimLeft(s) == "" || !IsSpace(TrimLeft(s)[0])
  {
    if s != "" && IsSpace(s[0]) {
      a := TrimLeftSplit(s[1..]);
      a := [s[0]] + a;
    } else {
      a := "";
    }
  }

  lemma {:induction false} TrimRightSplit(s: string) returns (b: string)
    ensures Blank(b) && s == TrimRight(s) + b
    ensures TrimRight(s) == "" || !IsSpace(TrimRight(s)[|TrimRight(s)| - 1])
  {
    if s != "" && IsSpace(s[|s| - 1]) {
      b := TrimRightSplit(s[..|s| - 1]);
      b := b + [s[|s| - 1]];
    } else {
      b := "";
    }
  }

  /** Trimming removes blanks from the two ends and nothing else. */
  lemma TrimSplit(s: string) returns (a: string, b: string)
    ensures Blank(a) && Blank(b) && s == a + Trim(s) + b && Tight(Trim(s))
  {
    a := TrimLeftSplit(s);
    b := TrimRightSplit(TrimLeft(s));
    var t := Trim(s);
    if t != "" {
      assert TrimLeft(s)[0] == t[0];
    }
  }

  lemma TrimTight(s: string)
    requires Tight(s)
    ensures Trim(s) == s
  {
    TrimPadded("", s, "");
    assert "" + s + "" == s;
  }

  lemma TrimIdempotent(s: string)
    ensures Tight(Trim(s)) && Trim(Trim(s)) == Trim(s)
  {
    var _, _ := TrimSplit(s);
    TrimTight(Trim(s));
  }

  // ---- case -------------------------------------------------------------------

  /** unicode.ToLower and unicode.ToUpper: exact on ASCII, and beyond ASCII any
      per-rune tables that neither make nor hide a bar, a white space or one of the
      ASCII marks around phone numbers. */
  datatype CaseMap = CaseMap(lower: char -> char, upper: char -> char) {
    ghost predicate Valid() {
      && (forall c: char {:trigger lower(c)} :: c < 128 as char ==> lower(c) == AsciiLower(c))
      && (forall c: char {:trigger upper(c)} :: c < 128 as char ==> upper(c) == AsciiUpper(c))
      && (forall c: char {:trigger lower(c)} :: lower(c) == '|' <==> c == '|')
      && (forall c: char {:trigger lower(c)} :: IsSpace(lower(c)) <==> IsSpace(c))
      && (forall c: char {:trigger lower(c)} :: IsMark(lower(c)) <==> IsMark(c))
      && (forall c: char {:trigger upper(c)} :: IsSpace(upper(c)) <==> IsSpace(c))
    }
  }

  predicate IsMark(c: char) {
    c == ' ' || c == '-' || c == '(' || c == ')' || c == '+'
  }

  function AsciiLower(c: char): char {
    if 'A' <= c <= 'Z' then (c as int + 32) as char else c
  }

  function AsciiUpper(c: char): char {
    if 'a' <= c <= 'z' then (c as int - 32) as char else c
  }

  function MapChars(f: char -> char, s: string): (r: string)
    ensures |r| == |s|
    ensures forall i :: 0 <= i < |s| ==> r[i] == f(s[i])
  {
    seq(|s|, i requires 0 <= i < |s| => f(s[i]))
  }

  // ---- removing characters ----------------------------------------------------

  /** strings.Replacer with single-character keys and empty replacements. */
  function Without(s: string, drop: set<char>): string {
    if s == "" then ""
    else (if s[0] in drop then "" else [s[0]]) + Without(s[1..], drop)
  }

  lemma {:induction false} WithoutConcat(s: string, t: string, drop: set<char>)
    ensures Without(s + t, drop) == Without(s, drop) + Without(t, drop)
  {
    if s == "" {
      assert s + t == t;
    } else {
      assert (s + t)[0] == s[0] && (s + t)[1..] == s[1..] + t;
      WithoutConcat(s[1..], t, drop);
    }
  }

  lemma {:induction false} WithoutNothing(s: string, drop: set<char>)
    requires forall c :: c in s ==> c !in drop
    ensures Without(s, drop) == s
  {
    if s == "" {
    } else {
      assert s == [s[0]] + s[1..];
      assert forall c :: c in s[1..] ==> c in s;
      WithoutNothing(s[1..], drop);
    }
  }

  lemma {:induction false} WithoutFixed(s: string, drop: set<char>)
    ensures |Without(s, drop)| <= |s|
    ensures Without(s, drop) == s <==> forall c :: c in s ==> c !in drop
  {
    if s == "" {
    } else {
      WithoutFixed(s[1..], drop);
      assert s == [s[0]] + s[1..];
      if s[0] !in drop {
        assert Without(s, drop)[1..] == Without(s[1..], drop);
      }
    }
  }

  lemma {:induction false} WithoutChars(s: string, drop: set<char>)
    ensures forall c :: c in Without(s, drop) <==> c in s && c !in drop
  {
    if s == "" {
    } else {
      assert s == [s[0]] + s[1..];
      WithoutChars(s[1..], drop);
    }
  }

  lemma {:induction false} WithoutTwice(s: string, d: set<char>, e: set<char>)
    ensures Without(Without(s, d), e) == Without(s, d + e)
  {
    if s == "" {
    } else {
      WithoutTwice(s[1..], d, e);
      WithoutConcat(if s[0] in d then "" else [s[0]], Without(s[1..], d), e);
      assert Without([s[0]], e) == if s[0] in e then "" else [s[0]];
    }
  }

  /** Trimming first makes no difference when every space is removed anyway. */
  lemma WithoutTrim(s: string, drop: set<char>)
    requires forall c :: c in s && IsSpace(c) ==> c in drop
    ensures Without(Trim(s), drop) == Without(s, drop)
  {
    var a, b := TrimSplit(s);
    WithoutConcat(a + Trim(s), b, drop);
    WithoutConcat(a, Trim(s), drop);
    assert forall c :: c in a || c in b ==> c in s && IsSpace(c);
    WithoutAll(a, drop);
    WithoutAll(b, drop);
  }

  lemma {:induction false} WithoutAll(s: string, drop: set<char>)
    requires forall c :: c in s ==> c in drop
    ensures Without(s, drop) == ""
  {
    if s == "" {
    } else {
      assert forall c :: c in s[1..] ==> c in s;
      WithoutAll(s[1..], drop);
    }
  }

  /** `r` is `s` with exactly the characters of `drop` deleted: `at` lists the places
      that are kept, in order. */
  ghost predicate KeptAt(s: string, r: string, drop: set<char>, at: seq<nat>) {
    && |at| == |r|
    && (forall k :: 0 <= k < |at| ==> at[k] < |s| && r[k] == s[at[k]])
    && (forall j, k :: 0 <= j < k < |at| ==> at[j] < at[k])
    && (forall i: nat :: i < |s| ==> (i in at <==> s[i] !in drop))
  }

  lemma {:induction false} WithoutKeeps(s: string, drop: set<char>) returns (at: seq<nat>)
    ensures KeptAt(s, Without(s, drop), drop, at)
  {
    if s == "" {
      at := [];
    } else {
      var k := |s| - 1;
      var rest := WithoutKeeps(s[..k], drop);
      assert s == s[..k] + [s[k]];
      WithoutConcat(s[..k], [s[k]], drop);
      at := if s[k] in drop then rest else rest + [k];
      KeptLast(s, Without(s[..k], drop), drop, rest);
    }
  }

  lemma KeptLast(s: string, r: string, drop: set<char>, at: seq<nat>)
    requires s != "" && KeptAt(s[..|s| - 1], r, drop, at)
    ensures var k := |s| - 1;
            if s[k] in drop then KeptAt(s, r, drop, at) else KeptAt(s, r + [s[k]], drop, at + [k])
  {
    var k := |s| - 1;
    var longer := at + [k];
    assert forall i: nat :: i < k ==> s[..k][i] == s[i];
    assert forall i :: i in longer <==> i in at || i == k;
  }

  // ---- splitting --------------------------------------------------------------

  /** strings.Split(s, sep) for a one-character separator. */
  function Split(s: string, sep: char): (parts: seq<string>)
    ensures |parts| > 0
  {
    if s == "" then [""]
    else
      var rest := Split(s[1..], sep);
      if s[0] == sep then [""] + rest else [[s[0]] + rest[0]] + rest[1..]
  }

  /** strings.Join(parts, sep) for a one-character separator. */
  function Join(parts: seq<string>, sep: char): string {
    if |parts| == 0 then ""
    else if |parts| == 1 then parts[0]
    else parts[0] + [sep] + Join(parts[1..], sep)
  }

  predicate Free(s: string, sep: char) {
    sep !in s
  }

  lemma JoinLonger(c: char, parts: seq<string>, sep: char)
    requires |parts| > 0
    ensures Join([[c] + parts[0]] + parts[1..], sep) == [c] + Join(parts, sep)
  {
    var longer := [[c] + parts[0]] + parts[1..];
    if |parts| > 1 {
      assert longer[1..] == parts[1..];
    }
  }

  lemma JoinBlank(parts: seq<string>, sep: char)
    requires |parts| > 0
    ensures Join([""] + parts, sep) == [sep] + Join(parts, sep)
  {
    assert ([""] + parts)[1..] == parts;
  }

  /** Split is the one way to cut a text into separator-free pieces. */
  lemma {:induction false} SplitJoin(s: string, sep: char)
    ensures Join(Split(s, sep), sep) == s
    ensures forall i :: 0 <= i < |Split(s, sep)| ==> Free(Split(s, sep)[i], sep)
  {
    if s == "" {
    } else {
      SplitJoin(s[1..], sep);
      var rest := Split(s[1..], sep);
      assert s == [s[0]] + s[1..];
      JoinLonger(s[0], rest, sep);
      JoinBlank(rest, sep);
      hide Join;
      assert Split(s, sep) == if s[0] == sep then [""] + rest else [[s[0]] + rest[0]] + rest[1..];
    }
  }

  lemma {:induction false} SplitPiece(p: string, rest: string, sep: char)
    requires Free(p, sep)
    ensures Split(p + [sep] + rest, sep) == [p] + Split(rest, sep)
  {
    if p == "" {
      assert (p + [sep] + rest)[1..] == rest;
    } else {
      var s := p + [sep] + rest;
      assert s[0] == p[0] && s[1..] == p[1..] + [sep] + rest;
      SplitPiece(p[1..], rest, sep);
      assert p == [p[0]] + p[1..];
    }
  }

  lemma {:induction false} SplitFree(p: string, sep: char)
    requires Free(p, sep)
    ensures Split(p, sep) == [p]
  {
    if p == "" {
    } else {
      SplitFree(p[1..], sep);
      assert p == [p[0]] + p[1..];
    }
  }

  /** Joining separator-free pieces loses nothing. */
  lemma {:induction false} JoinSplit(parts: seq<string>, sep: char)
    requires |parts| > 0
    requires forall i :: 0 <= i < |parts| ==> Free(parts[i], sep)
    ensures Split(Join(parts, sep), sep) == parts
  {
    if |parts| == 1 {
      SplitFree(parts[0], sep);
    } else {
      SplitPiece(parts[0], Join(parts[1..], sep), sep);
      JoinSplit(parts[1..], sep);
    }
  }

  /** A text cut at its only bar has one left and one right part. */
  lemma CutUnique(a: string, b: string, x: string, y: string, sep: char)
    requires Free(x, sep) && Free(y, sep)
    requires a + [sep] + b == x + [sep] + y
    ensures a == x && b == y
  {
    var s := a + [sep] + b;
    assert s[|a|] == sep;
    assert s == x + [sep] + y;
    assert |a| == |x|;
    assert a == s[..|a|] && x == s[..|x|];
    assert b == s[|a| + 1..] && y == s[|x| + 1..];
  }
}

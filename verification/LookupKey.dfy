/** The two index columns of an application: the phone key, and the key over phone
    and date of birth that the admit-card lookup uses. */
module LookupKey {
  import opened Text
  import opened Crypto
  import opened Phone
  import opened Dates

  /** The text hashed for phone and date of birth together. */
  function CardText(phone: string, dob: string): string {
    phone + "|" + NormalizeDate(dob)
  }

  function PhoneIndex(cm: CaseMap, mac: Mac, phone: string): string {
    Hash(cm, mac, phone)
  }

  function CardIndex(cm: CaseMap, mac: Mac, phone: string, dob: string): string {
    Hash(cm, mac, CardText(phone, dob))
  }

  /** The eight digits yyyymmdd. */
  function Compact(d: Date): string
    requires IsReal(d)
  {
    Pad(d.year, 4) + Pad(d.month, 2) + Pad(d.day, 2)
  }

  lemma CompactInjective(d: Date, e: Date)
    requires IsReal(d) && IsReal(e) && Compact(d) == Compact(e)
    ensures d == e
  {
    PadInjective(d.year, e.year, 4);
    PadInjective(d.month, e.month, 2);
    PadInjective(d.day, e.day, 2);
    SameCut(Pad(d.year, 4), Pad(d.month, 2), Pad(d.day, 2), Pad(e.year, 4), Pad(e.month, 2), Pad(e.day, 2));
  }

  lemma PadInjective(m: nat, n: nat, width: nat)
    requires m < Power10(width) && n < Power10(width)
    ensures |Pad(m, width)| == |Pad(n, width)| == width
    ensures Pad(m, width) == Pad(n, width) ==> m == n
  {
    NumberPad(m, width);
    NumberPad(n, width);
  }

  lemma SameCut(a: string, b: string, c: string, x: string, y: string, z: string)
    requires |a| == |x| && |b| == |y| && a + b + c == x + y + z
    ensures a == x && b == y && c == z
  {
    var s := a + b + c;
    assert a == s[..|a|] && x == s[..|a|];
    assert b == s[|a|..|a| + |b|] && y == s[|a|..|a| + |b|];
    assert c == s[|a| + |b|..] && z == s[|a| + |b|..];
  }

  lemma CompactDigits(d: Date)
    requires IsReal(d)
    ensures |Compact(d)| == 8 && AllDigits(Compact(d))
  {
    NumberPad(d.year, 4);
    NumberPad(d.month, 2);
    NumberPad(d.day, 2);
  }

  lemma StripIso(d: Date)
    requires IsReal(d)
    ensures Without(Format(ISO, d), PUNCTUATION) == Compact(d)
  {
    FormatShapes(d);
    NumberPad(d.year, 4);
    NumberPad(d.month, 2);
    NumberPad(d.day, 2);
    StripDashes(Pad(d.year, 4), Pad(d.month, 2), Pad(d.day, 2));
  }

  lemma StripDashes(y: string, m: string, n: string)
    requires AllDigits(y) && AllDigits(m) && AllDigits(n)
    ensures Without(y + "-" + m + "-" + n, PUNCTUATION) == y + m + n
  {
    hide Without;
    WithoutAll("-", PUNCTUATION);
    WithoutNothing(y, PUNCTUATION);
    WithoutNothing(m, PUNCTUATION);
    WithoutNothing(n, PUNCTUATION);
    WithoutFive(y, m, n, "-", PUNCTUATION);
  }

  lemma WithoutFive(y: string, m: string, n: string, dash: string, drop: set<char>)
    requires Without(dash, drop) == ""
    ensures Without(y + dash + m + dash + n, drop) == Without(y, drop) + Without(m, drop) + Without(n, drop)
  {
    hide Without;
    WithoutConcat(y + dash + m + dash, n, drop);
    WithoutConcat(y + dash + m, dash, drop);
    WithoutConcat(y + dash, m, drop);
    WithoutConcat(y, dash, drop);
  }

  /** The hashed text splits into the phone's digits, a bar and eight date digits. */
  lemma Factor(cm: CaseMap, phone: string, dob: string)
    requires cm.Valid() && BdPhone(phone) && DateStr(dob)
    ensures IsReal(DateOf(dob).value)
    ensures Normalize(cm, CardText(phone, dob)) == Normalize(cm, phone) + "|" + Compact(DateOf(dob).value)
    ensures Free(Normalize(cm, phone), '|') && Free(Compact(DateOf(dob).value), '|')
  {
    DateOfReal(dob);
    var d := DateOf(dob).value;
    AcceptedChars(phone);
    Separators(ISO, d);
    NormalizePlain(cm, phone);
    NormalizeBarred(cm, phone, Format(ISO, d));
    StripIso(d);
    NormalPhone(cm, phone);
    CompactDigits(d);
  }

  lemma NormalizeBarred(cm: CaseMap, a: string, b: string)
    requires cm.Valid()
    requires forall c :: c in a || c in b ==> PlainChar(c)
    ensures Normalize(cm, a + "|" + b) == Without(a, PUNCTUATION) + "|" + Without(b, PUNCTUATION)
  {
    var text := a + "|" + b;
    forall c | c in text
      ensures PlainChar(c)
    {
      assert c in a || c == '|' || c in b;
    }
    NormalizePlain(cm, text);
    WithoutConcat(a + "|", b, PUNCTUATION);
    WithoutConcat(a, "|", PUNCTUATION);
    WithoutNothing("|", PUNCTUATION);
  }

  /** Two accepted pairs are hashed as the same text exactly when the phones
      normalise alike and the dates denote the same day, however either is typed. */
  lemma Canonical(cm: CaseMap, phone: string, dob: string, phone': string, dob': string)
    requires cm.Valid() && BdPhone(phone) && DateStr(dob) && BdPhone(phone') && DateStr(dob')
    ensures Normalize(cm, CardText(phone, dob)) == Normalize(cm, CardText(phone', dob'))
            <==> Normalize(cm, phone) == Normalize(cm, phone') && DateOf(dob) == DateOf(dob')
  {
    Factor(cm, phone, dob);
    Factor(cm, phone', dob');
    var a, b := Normalize(cm, phone), Compact(DateOf(dob).value);
    var x, y := Normalize(cm, phone'), Compact(DateOf(dob').value);
    assert "|" == ['|'];
    if a + "|" + b == x + "|" + y {
      CutUnique(a, b, x, y, '|');
      CompactInjective(DateOf(dob).value, DateOf(dob').value);
    }
  }

  /** No collision among two admit-card keys. */
  ghost predicate CardsApart(cm: CaseMap, mac: Mac, phone: string, dob: string, phone': string, dob': string) {
    Apart(mac, Normalize(cm, CardText(phone, dob)), Normalize(cm, CardText(phone', dob')))
  }

  /** The index columns decide what they are meant to decide, collisions aside. */
  lemma CardIndexMeaning(cm: CaseMap, mac: Mac, phone: string, dob: string, phone': string, dob': string)
    requires cm.Valid() && BdPhone(phone) && DateStr(dob) && BdPhone(phone') && DateStr(dob')
    requires CardsApart(cm, mac, phone, dob, phone', dob')
    ensures CardIndex(cm, mac, phone, dob) == CardIndex(cm, mac, phone', dob')
            <==> Normalize(cm, phone) == Normalize(cm, phone') && DateOf(dob) == DateOf(dob')
  {
    Canonical(cm, phone, dob, phone', dob');
    HashEqual(cm, mac, CardText(phone, dob), CardText(phone', dob'));
  }
}

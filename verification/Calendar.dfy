/** The accepted birthdays, written out: which texts they are, which days exist, and
    what each text is stored as.  Nothing here goes by the definitions of Dates. */
module Calendar {
  import opened Wrappers
  import opened Text
  import opened Dates
  import Counting

  // ---- days that exist --------------------------------------------------------

  /** The Gregorian rule and the lengths of the months. */
  predicate Exists(year: int, month: int, day: int) {
    && 0 <= year <= 9999 && 1 <= month <= 12 && 1 <= day
    && day <= [31, if (year % 4 == 0 && year % 100 != 0) || year % 400 == 0 then 29 else 28, 31, 30, 31, 30,
               31, 31, 30, 31, 30, 31][month - 1]
  }

  lemma ExistsIsReal(year: int, month: int, day: int)
    ensures Exists(year, month, day) <==> IsReal(Date(year, month, day))
  {
    hide IsLeap;
    assert IsLeap(year) <==> (year % 4 == 0 && year % 100 != 0) || year % 400 == 0 by {
      LeapRule(year);
    }
    if 1 <= month <= 12 {
      MonthLengths(month, year);
    }
  }

  lemma Centuries(n: int)
    ensures n % 400 == 0 ==> n % 100 == 0
  {
  }

  lemma FourYears(n: int)
    ensures n % 100 == 0 ==> n % 4 == 0
  {
  }

  lemma LeapRule(year: int)
    ensures IsLeap(year) <==> (year % 4 == 0 && year % 100 != 0) || year % 400 == 0
  {
    Centuries(year);
    FourYears(year);
    var a, b, c := year % 4, year % 100, year % 400;
    assert IsLeap(year) <==> a == 0 && (b != 0 || c == 0);
  }

  lemma MonthLengths(month: int, year: int)
    requires 1 <= month <= 12
    ensures DaysIn(month, year)
         == [31, if IsLeap(year) then 29 else 28, 31, 30, 31, 30, 31, 31, 30, 31, 30, 31][month - 1]
  {
  }

  // ---- counting days ----------------------------------------------------------

  /** The real days of a month. */
  ghost function DaysOf(year: int, month: int): set<int> {
    set d: int | 1 <= d <= 31 && IsReal(Date(year, month, d))
  }

  ghost function DaysInYear(year: int, months: nat): nat {
    if months == 0 then 0 else DaysInYear(year, months - 1) + |DaysOf(year, months)|
  }

  ghost function DaysInYears(first: int, years: nat): nat {
    if years == 0 then 0 else DaysInYears(first, years - 1) + DaysInYear(first + years - 1, 12)
  }

  function FromOne(n: nat): (s: set<int>)
    ensures |s| == n && forall k :: k in s <==> 1 <= k <= n
  {
    if n == 0 then {} else FromOne(n - 1) + {n}
  }

  lemma MonthCount(year: int, month: int)
    requires 0 <= year <= 9999 && 1 <= month <= 12
    ensures |DaysOf(year, month)|
         == [31, if (year % 4 == 0 && year % 100 != 0) || year % 400 == 0 then 29 else 28, 31, 30, 31, 30, 31, 31, 30, 31,
             30, 31][month - 1]
  {
    LeapRule(year);
    MonthLengths(month, year);
    hide IsLeap;
    var n := DaysIn(month, year);
    assert 28 <= n <= 31;
    hide DaysIn;
    assert DaysOf(year, month) == FromOne(n);
  }

  /** The leap years among the first ones of the calendar. */
  function LeapsBefore(year: int): int {
    (year + 3) / 4 - (year + 99) / 100 + (year + 399) / 400
  }

  lemma YearCount(year: int)
    requires 0 <= year <= 9999
    ensures DaysInYear(year, 12) == 365 + LeapsBefore(year + 1) - LeapsBefore(year)
  {
    MonthCounts(year);
    assert LeapsBefore(year + 1) - LeapsBefore(year)
        == if (year % 4 == 0 && year % 100 != 0) || year % 400 == 0 then 1 else 0 by {
      LeapStep(year);
    }
  }

  lemma LeapStep(year: int)
    requires 0 <= year
    ensures LeapsBefore(year + 1) - LeapsBefore(year)
         == if (year % 4 == 0 && year % 100 != 0) || year % 400 == 0 then 1 else 0
  {
    CeilFour(year);
    CeilHundred(year);
    CeilCycle(year);
    LeapRule(year);
    Centuries(year);
    FourYears(year);
    LeapSum(year % 4 == 0, year % 100 == 0, year % 400 == 0,
            (year + 4) / 4, (year + 3) / 4, (year + 100) / 100, (year + 99) / 100, (year + 400) / 400, (year + 399) / 400);
    assert LeapsBefore(year + 1) == (year + 4) / 4 - (year + 100) / 100 + (year + 400) / 400 by {
      assert year + 1 + 3 == year + 4 && year + 1 + 99 == year + 100 && year + 1 + 399 == year + 400;
    }
  }

  lemma LeapSum(four: bool, hundred: bool, cycle: bool, a: int, a': int, b: int, b': int, c: int, c': int)
    requires (cycle ==> hundred) && (hundred ==> four)
    requires a - a' == (if four then 1 else 0) && b - b' == (if hundred then 1 else 0) && c - c' == if cycle then 1 else 0
    ensures (a - b + c) - (a' - b' + c') == if (four && !hundred) || cycle then 1 else 0
  {
  }

  lemma CeilFour(n: int)
    requires 0 <= n
    ensures (n + 4) / 4 - (n + 3) / 4 == if n % 4 == 0 then 1 else 0
  {
  }

  lemma CeilHundred(n: int)
    requires 0 <= n
    ensures (n + 100) / 100 - (n + 99) / 100 == if n % 100 == 0 then 1 else 0
  {
  }

  lemma CeilCycle(n: int)
    requires 0 <= n
    ensures (n + 400) / 400 - (n + 399) / 400 == if n % 400 == 0 then 1 else 0
  {
  }

  lemma MonthCounts(year: int)
    requires 0 <= year <= 9999
    ensures DaysInYear(year, 12) == if (year % 4 == 0 && year % 100 != 0) || year % 400 == 0 then 366 else 365
  {
    hide DaysOf;
    MonthCount(year, 1);
    MonthCount(year, 2);
    MonthCount(year, 3);
    MonthCount(year, 4);
    MonthCount(year, 5);
    MonthCount(year, 6);
    MonthCount(year, 7);
    MonthCount(year, 8);
    MonthCount(year, 9);
    MonthCount(year, 10);
    MonthCount(year, 11);
    MonthCount(year, 12);
    TwelveMonths(year);
  }

  lemma TwelveMonths(year: int)
    ensures DaysInYear(year, 12)
         == |DaysOf(year, 1)| + |DaysOf(year, 2)| + |DaysOf(year, 3)| + |DaysOf(year, 4)| + |DaysOf(year, 5)|
            + |DaysOf(year, 6)| + |DaysOf(year, 7)| + |DaysOf(year, 8)| + |DaysOf(year, 9)| + |DaysOf(year, 10)|
            + |DaysOf(year, 11)| + |DaysOf(year, 12)|
  {
    hide DaysOf;
    assert DaysInYear(year, 0) == 0;
    assert DaysInYear(year, 1) == |DaysOf(year, 1)|;
    assert DaysInYear(year, 2) == DaysInYear(year, 1) + |DaysOf(year, 2)|;
    assert DaysInYear(year, 4) == DaysInYear(year, 2) + |DaysOf(year, 3)| + |DaysOf(year, 4)|;
    assert DaysInYear(year, 6) == DaysInYear(year, 4) + |DaysOf(year, 5)| + |DaysOf(year, 6)|;
    assert DaysInYear(year, 8) == DaysInYear(year, 6) + |DaysOf(year, 7)| + |DaysOf(year, 8)|;
    assert DaysInYear(year, 10) == DaysInYear(year, 8) + |DaysOf(year, 9)| + |DaysOf(year, 10)|;
    assert DaysInYear(year, 12) == DaysInYear(year, 10) + |DaysOf(year, 11)| + |DaysOf(year, 12)|;
  }

  lemma {:induction false} YearsCount(first: int, years: nat)
    requires 0 <= first && first + years <= 10000
    ensures DaysInYears(first, years) == 365 * years + LeapsBefore(first + years) - LeapsBefore(first)
  {
    hide DaysInYear, LeapsBefore;
    if years == 0 {
    } else {
      YearsCount(first, years - 1);
      YearCount(first + years - 1);
    }
  }

  /** The Gregorian cycle: any 400 consecutive years have 146097 days. */
  lemma GregorianCycle(first: int)
    requires 0 <= first <= 9600
    ensures DaysInYears(first, 400) == 146097
  {
    YearsCount(first, 400);
    LeapsCycle(first);
    hide LeapsBefore, DaysInYears;
  }

  lemma LeapsCycle(n: int)
    requires 0 <= n
    ensures LeapsBefore(n + 400) == LeapsBefore(n) + 97
  {
    FourCycle(n + 3);
    HundredCycle(n + 99);
    FullCycle(n + 399);
  }

  lemma FourCycle(n: int)
    ensures (n + 400) / 4 == n / 4 + 100
  {
  }

  lemma HundredCycle(n: int)
    ensures (n + 400) / 100 == n / 100 + 4
  {
  }

  lemma FullCycle(n: int)
    ensures (n + 400) / 400 == n / 400 + 1
  {
  }

  // ---- the texts --------------------------------------------------------------

  function Num(c: char): int {
    c as int - '0' as int
  }

  predicate DigitsAt(t: string, i: nat, j: nat)
    requires i <= j <= |t|
  {
    forall k :: i <= k < j ==> '0' <= t[k] <= '9'
  }

  function TwoAt(t: string, i: nat): int
    requires i + 2 <= |t|
  {
    Num(t[i]) * 10 + Num(t[i + 1])
  }

  function FourAt(t: string, i: nat): int
    requires i + 4 <= |t|
  {
    ((Num(t[i]) * 10 + Num(t[i + 1])) * 10 + Num(t[i + 2])) * 10 + Num(t[i + 3])
  }

  /** yyyy-mm-dd, a day that exists. */
  predicate YearFirst(t: string) {
    && |t| == 10 && t[4] == '-' && t[7] == '-'
    && DigitsAt(t, 0, 4) && DigitsAt(t, 5, 7) && DigitsAt(t, 8, 10)
    && Exists(FourAt(t, 0), TwoAt(t, 5), TwoAt(t, 8))
  }

  /** dd-mm-yyyy or dd/mm/yyyy, a day that exists. */
  predicate DayFirst(t: string) {
    && |t| == 10 && t[2] == t[5] && (t[2] == '-' || t[2] == '/')
    && DigitsAt(t, 0, 2) && DigitsAt(t, 3, 5) && DigitsAt(t, 6, 10)
    && Exists(FourAt(t, 6), TwoAt(t, 3), TwoAt(t, 0))
  }

  lemma NumberTwo(s: string)
    requires |s| == 2 && AllDigits(s)
    ensures Number(s) == TwoAt(s, 0)
  {
    assert s[..1][..0] == "" && s[..1] == [s[0]];
    assert Number(s[..1]) == Num(s[0]);
  }

  lemma NumberFour(s: string)
    requires |s| == 4 && AllDigits(s)
    ensures Number(s) == FourAt(s, 0)
  {
    NumberTwo(s[..2]);
    assert s[..3][..2] == s[..2];
    assert Number(s[..3]) == Number(s[..2]) * 10 + Num(s[2]);
  }

  /** A padded field and what its digits say. */
  lemma TwoDigits(n: nat)
    requires n < 100
    ensures var s := Pad(n, 2); |s| == 2 && AllDigits(s) && TwoAt(s, 0) == n
  {
    assert Power10(2) == 100;
    NumberPad(n, 2);
    NumberTwo(Pad(n, 2));
  }

  lemma FourDigits(n: nat)
    requires n < 10000
    ensures var s := Pad(n, 4); |s| == 4 && AllDigits(s) && FourAt(s, 0) == n
  {
    assert Power10(4) == 10000;
    NumberPad(n, 4);
    NumberFour(Pad(n, 4));
  }

  lemma TwoBack(s: string)
    requires |s| == 2 && AllDigits(s)
    ensures TwoAt(s, 0) >= 0 && Pad(TwoAt(s, 0), 2) == s
  {
    PadNumber(s);
    NumberTwo(s);
  }

  lemma FourBack(s: string)
    requires |s| == 4 && AllDigits(s)
    ensures FourAt(s, 0) >= 0 && Pad(FourAt(s, 0), 4) == s
  {
    PadNumber(s);
    NumberFour(s);
  }

  lemma TwoPart(t: string, i: nat)
    requires i + 2 <= |t| && DigitsAt(t, i, i + 2)
    ensures TwoAt(t, i) >= 0 && Pad(TwoAt(t, i), 2) == t[i..i + 2]
  {
    TwoBack(t[i..i + 2]);
  }

  lemma FourPart(t: string, i: nat)
    requires i + 4 <= |t| && DigitsAt(t, i, i + 4)
    ensures FourAt(t, i) >= 0 && Pad(FourAt(t, i), 4) == t[i..i + 4]
  {
    FourBack(t[i..i + 4]);
  }

  lemma YearFirstParts(y: string, m: string, e: string)
    requires |y| == 4 && |m| == 2 && |e| == 2 && AllDigits(y) && AllDigits(m) && AllDigits(e)
    ensures var t := y + "-" + m + "-" + e;
            && |t| == 10 && t[4] == '-' && t[7] == '-'
            && DigitsAt(t, 0, 4) && DigitsAt(t, 5, 7) && DigitsAt(t, 8, 10)
            && FourAt(t, 0) == FourAt(y, 0) && TwoAt(t, 5) == TwoAt(m, 0) && TwoAt(t, 8) == TwoAt(e, 0)
  {
    var t := y + "-" + m + "-" + e;
    assert t[0] == y[0] && t[1] == y[1] && t[2] == y[2] && t[3] == y[3];
    assert t[5] == m[0] && t[6] == m[1] && t[8] == e[0] && t[9] == e[1];
  }

  lemma DayFirstParts(e: string, c: char, m: string, y: string)
    requires |y| == 4 && |m| == 2 && |e| == 2 && AllDigits(y) && AllDigits(m) && AllDigits(e)
    ensures var t := e + [c] + m + [c] + y;
            && |t| == 10 && t[2] == c && t[5] == c
            && DigitsAt(t, 0, 2) && DigitsAt(t, 3, 5) && DigitsAt(t, 6, 10)
            && FourAt(t, 6) == FourAt(y, 0) && TwoAt(t, 3) == TwoAt(m, 0) && TwoAt(t, 0) == TwoAt(e, 0)
  {
    var t := e + [c] + m + [c] + y;
    assert t[0] == e[0] && t[1] == e[1] && t[3] == m[0] && t[4] == m[1];
    assert t[6] == y[0] && t[7] == y[1] && t[8] == y[2] && t[9] == y[3];
  }

  /** The print of a date, read by its digits. */
  lemma IsoText(d: Date)
    requires IsReal(d)
    ensures var t := Format(ISO, d);
            YearFirst(t) && FourAt(t, 0) == d.year && TwoAt(t, 5) == d.month && TwoAt(t, 8) == d.day
  {
    FormatShapes(d);
    ExistsIsReal(d.year, d.month, d.day);
    MonthBelow(d);
    FourDigits(d.year);
    TwoDigits(d.month);
    TwoDigits(d.day);
    YearFirstParts(Pad(d.year, 4), Pad(d.month, 2), Pad(d.day, 2));
    hide Pad, Format, Exists, IsReal, FourAt, TwoAt, DigitsAt, AllDigits;
    assert YearFirst(Format(ISO, d));
  }

  lemma DayFirstText(d: Date, layout: seq<Chunk>, c: char)
    requires IsReal(d) && ((layout == DASHED && c == '-') || (layout == SLASHED && c == '/'))
    ensures var t := Format(layout, d);
            && DayFirst(t) && t[2] == c
            && FourAt(t, 6) == d.year && TwoAt(t, 3) == d.month && TwoAt(t, 0) == d.day
  {
    FormatShapes(d);
    ExistsIsReal(d.year, d.month, d.day);
    MonthBelow(d);
    FourDigits(d.year);
    TwoDigits(d.month);
    TwoDigits(d.day);
    DayFirstParts(Pad(d.day, 2), c, Pad(d.month, 2), Pad(d.year, 4));
    hide Pad, Format, Exists, IsReal, FourAt, TwoAt, DigitsAt, AllDigits;
    assert "-" == ['-'] && "/" == ['/'];
    assert DayFirst(Format(layout, d));
  }

  /** Such a text is the print of its day. */
  lemma YearFirstPrint(t: string)
    requires YearFirst(t)
    ensures var d := Date(FourAt(t, 0), TwoAt(t, 5), TwoAt(t, 8)); IsReal(d) && Format(ISO, d) == t
  {
    var d := Date(FourAt(t, 0), TwoAt(t, 5), TwoAt(t, 8));
    ExistsIsReal(d.year, d.month, d.day);
    FourPart(t, 0);
    TwoPart(t, 5);
    TwoPart(t, 8);
    hide Pad, Format, Exists, IsReal, FourAt, TwoAt, DigitsAt;
    FormatShapes(d);
    CutIso(t);
  }

  lemma CutIso(t: string)
    requires |t| == 10 && t[4] == '-' && t[7] == '-'
    ensures t == t[0..4] + "-" + t[5..7] + "-" + t[8..10]
  {
  }

  lemma DayShape(d: Date, c: char)
    requires IsReal(d) && (c == '-' || c == '/')
    ensures Format(if c == '-' then DASHED else SLASHED, d) == Pad(d.day, 2) + [c] + Pad(d.month, 2) + [c] + Pad(d.year, 4)
  {
    hide Pad, Format, IsReal;
    FormatShapes(d);
    assert "-" == ['-'] && "/" == ['/'];
  }

  lemma CutTen(t: string, c: char)
    requires |t| == 10 && t[2] == c && t[5] == c
    ensures t == t[0..2] + [c] + t[3..5] + [c] + t[6..10]
  {
  }

  lemma DayFirstPrint(t: string)
    requires DayFirst(t)
    ensures var d := Date(FourAt(t, 6), TwoAt(t, 3), TwoAt(t, 0));
            IsReal(d) && Format(if t[2] == '-' then DASHED else SLASHED, d) == t
  {
    var d := Date(FourAt(t, 6), TwoAt(t, 3), TwoAt(t, 0));
    ExistsIsReal(d.year, d.month, d.day);
    FourPart(t, 6);
    TwoPart(t, 3);
    TwoPart(t, 0);
    hide Pad, Format, Exists, IsReal, FourAt, TwoAt, DigitsAt;
    DayShape(d, t[2]);
    CutTen(t, t[2]);
  }

  lemma KnownThree(layout: seq<Chunk>)
    requires Known(layout)
    ensures layout == ISO || layout == DASHED || layout == SLASHED
  {
    assert LAYOUTS == [ISO, DASHED, SLASHED];
  }

  /** The whole of datestr and normalizeDate in terms of characters: apart from outer
      blanks exactly these texts are accepted; year-first texts are stored as they
      are, day-first texts with their parts turned round, and others only trimmed. */
  lemma DateTexts(s: string)
    ensures DateStr(s) <==> YearFirst(Trim(s)) || DayFirst(Trim(s))
    ensures YearFirst(Trim(s)) ==> NormalizeDate(s) == Trim(s)
    ensures DayFirst(Trim(s)) ==> NormalizeDate(s) == Trim(s)[6..] + "-" + Trim(s)[3..5] + "-" + Trim(s)[..2]
    ensures !YearFirst(Trim(s)) && !DayFirst(Trim(s)) ==> NormalizeDate(s) == Trim(s)
  {
    hide Format, IsReal, Exists;
    var t := Trim(s);
    if DateStr(s) {
      var layout := FirstParseKnown(LAYOUTS, t);
      FormatParse(layout, t);
      KnownThree(layout);
      var d := Parse(layout, t).value;
      if layout == ISO {
        IsoText(d);
      } else {
        DayFirstText(d, layout, if layout == DASHED then '-' else '/');
      }
    }
    if YearFirst(t) {
      YearFirstPrint(t);
      ReadsAs(s, ISO, Date(FourAt(t, 0), TwoAt(t, 5), TwoAt(t, 8)));
    }
    if DayFirst(t) {
      DayFirstPrint(t);
      var d := Date(FourAt(t, 6), TwoAt(t, 3), TwoAt(t, 0));
      ReadsAs(s, if t[2] == '-' then DASHED else SLASHED, d);
      TurnedRound(t);
    }
  }

  lemma ReadsAs(s: string, layout: seq<Chunk>, d: Date)
    requires (layout == ISO || layout == DASHED || layout == SLASHED) && IsReal(d) && Trim(s) == Format(layout, d)
    ensures DateStr(s) && NormalizeDate(s) == Format(ISO, d)
  {
    hide Format, IsReal;
    assert Known(layout);
    var a, b := TrimSplit(s);
    NormalizePrinted(layout, d, a, b);
  }

  lemma TurnedRound(t: string)
    requires DayFirst(t)
    ensures var d := Date(FourAt(t, 6), TwoAt(t, 3), TwoAt(t, 0));
            IsReal(d) && Format(ISO, d) == t[6..] + "-" + t[3..5] + "-" + t[..2]
  {
    var d := Date(FourAt(t, 6), TwoAt(t, 3), TwoAt(t, 0));
    ExistsIsReal(d.year, d.month, d.day);
    FourPart(t, 6);
    TwoPart(t, 3);
    TwoPart(t, 0);
    hide Pad, Format, Exists, IsReal, FourAt, TwoAt, DigitsAt;
    FormatShapes(d);
    assert t[6..10] == t[6..] && t[0..2] == t[..2];
  }

  lemma LeapIso(p: string)
    requires |p| == 4 && AllDigits(p)
    ensures YearFirst(p + "-02-29") <==> Exists(FourAt(p, 0), 2, 29)
    ensures !DayFirst(p + "-02-29") && Trim(p + "-02-29") == p + "-02-29"
  {
    var t := p + "-02-29";
    assert t[0] == p[0] && t[1] == p[1] && t[2] == p[2] && t[3] == p[3] && t[4..] == "-02-29";
    assert t[9] == t[4..][5] && t[8] == t[4..][4] && t[5] == t[4..][1] && t[6] == t[4..][2];
    hide Exists, Trim;
    TrimTight(t);
    assert FourAt(t, 0) == FourAt(p, 0) && TwoAt(t, 5) == 2 && TwoAt(t, 8) == 29;
  }

  lemma LeapSlashed(p: string)
    requires |p| == 4 && AllDigits(p)
    ensures var u := "29/02/" + p;
            && Trim(u) == u && (Exists(FourAt(p, 0), 2, 29) ==> DayFirst(u))
            && u[6..] + "-" + u[3..5] + "-" + u[..2] == p + "-02-29"
  {
    var u := "29/02/" + p;
    assert u[6] == p[0] && u[7] == p[1] && u[8] == p[2] && u[9] == p[3] && u[..6] == "29/02/";
    hide Exists, Trim;
    TrimTight(u);
    assert FourAt(u, 6) == FourAt(p, 0) && TwoAt(u, 3) == 2 && TwoAt(u, 0) == 29;
    assert u[3..5] == "02" && u[..2] == "29" && u[6..] == p;
    assert p + "-" + "02" + "-" + "29" == p + "-02-29";
  }

  lemma LeapDayExists(y: int)
    requires 0 <= y < 10000
    ensures Exists(y, 2, 29) <==> (y % 4 == 0 && y % 100 != 0) || y % 400 == 0
  {
  }

  /** The leap day: accepted exactly in leap years, and stored year first. */
  lemma LeapDay(y: nat)
    requires y < 10000
    ensures DateStr(Pad(y, 4) + "-02-29") <==> (y % 4 == 0 && y % 100 != 0) || y % 400 == 0
    ensures (y % 4 == 0 && y % 100 != 0) || y % 400 == 0 ==>
              NormalizeDate("29/02/" + Pad(y, 4)) == Pad(y, 4) + "-02-29"
  {
    FourDigits(y);
    var p := Pad(y, 4);
    hide Pad, Trim, DateStr, NormalizeDate, Exists, YearFirst, DayFirst, FourAt;
    LeapIso(p);
    LeapSlashed(p);
    LeapDayExists(y);
    DateTexts(p + "-02-29");
    DateTexts("29/02/" + p);
  }
}

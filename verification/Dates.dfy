/** The three date layouts, as time.Parse and Time.Format treat them, and
    `normalizeDate`. */
module Dates {
  import opened Wrappers
  import opened Text

  // ---- calendar ---------------------------------------------------------------

  datatype Date = Date(year: int, month: int, day: int)

  predicate IsLeap(year: int) {
    year % 4 == 0 && (year % 100 != 0 || year % 400 == 0)
  }

  function DaysIn(month: int, year: int): int {
    if month == 2 then (if IsLeap(year) then 29 else 28)
    else if month in {4, 6, 9, 11} then 30
    else 31
  }

  /** A day of the proleptic Gregorian calendar with a four-digit year. */
  predicate IsReal(d: Date) {
    0 <= d.year <= 9999 && 1 <= d.month <= 12 && 1 <= d.day <= DaysIn(d.month, d.year)
  }

  // ---- layouts ----------------------------------------------------------------

  datatype Chunk = Year | Month | Day | Sep(c: char)

  const ISO := [Year, Sep('-'), Month, Sep('-'), Day]
  const DASHED := [Day, Sep('-'), Month, Sep('-'), Year]
  const SLASHED := [Day, Sep('/'), Month, Sep('/'), Year]

  /** Tried in this order. */
  const LAYOUTS := [ISO, DASHED, SLASHED]

  function Width(chunk: Chunk): nat {
    match chunk
    case Year => 4
    case Month => 2
    case Day => 2
    case Sep(_) => 1
  }

  function Number(s: string): nat
    requires AllDigits(s)
  {
    if s == "" then 0 else Number(s[..|s| - 1]) * 10 + (s[|s| - 1] as int - '0' as int)
  }

  function Digit(n: int): char {
    '0' + (n % 10) as char
  }

  /** Zero-padded decimal of fixed width. */
  function Pad(n: nat, width: nat): string {
    if width == 0 then "" else Pad(n / 10, width - 1) + [Digit(n)]
  }

  /** Reads one chunk at the head of the text.  Year, month and day take exactly
      as many digits as the layout shows; a month outside 1..12 fails at once. */
  function ReadChunk(chunk: Chunk, s: string, d: Date): Option<Date> {
    var w := Width(chunk);
    if |s| < w then None
    else
      var head := s[..w];
      match chunk
      case Sep(c) => if head[0] == c then Some(d) else None
      case Year => if AllDigits(head) then Some(d.(year := Number(head))) else None
      case Month =>
        if AllDigits(head) && 1 <= Number(head) <= 12 then Some(d.(month := Number(head))) else None
      case Day => if AllDigits(head) then Some(d.(day := Number(head))) else None
  }

  function ReadChunks(layout: seq<Chunk>, s: string, d: Date): Option<Date> {
    if layout == [] then
      if s == "" then Some(d) else None
    else
      match ReadChunk(layout[0], s, d)
      case None => None
      case Some(e) => ReadChunks(layout[1..], s[Width(layout[0])..], e)
  }

  const ZERO := Date(0, 0, 0)

  /** time.Parse: the day is checked against its month once everything is read. */
  function Parse(layout: seq<Chunk>, s: string): Option<Date> {
    match ReadChunks(layout, s, ZERO)
    case None => None
    case Some(d) => if 1 <= d.day <= DaysIn(d.month, d.year) then Some(d) else None
  }

  function WriteChunk(chunk: Chunk, d: Date): string
    requires IsReal(d)
  {
    match chunk
    case Year => Pad(d.year, 4)
    case Month => Pad(d.month, 2)
    case Day => Pad(d.day, 2)
    case Sep(c) => [c]
  }

  /** Time.Format */
  function Format(layout: seq<Chunk>, d: Date): string
    requires IsReal(d)
  {
    if layout == [] then "" else WriteChunk(layout[0], d) + Format(layout[1..], d)
  }

  // ---- printing then parsing, and parsing then printing -----------------------

  lemma {:induction false} NumberPad(n: nat, width: nat)
    ensures |Pad(n, width)| == width && AllDigits(Pad(n, width))
    ensures n < Power10(width) ==> Number(Pad(n, width)) == n
  {
    if width == 0 {
    } else {
      NumberPad(n / 10, width - 1);
      var s := Pad(n, width);
      assert s[..width - 1] == Pad(n / 10, width - 1);
    }
  }

  function Power10(k: nat): nat {
    if k == 0 then 1 else 10 * Power10(k - 1)
  }

  lemma {:induction false} PadNumber(s: string)
    requires AllDigits(s)
    ensures Number(s) < Power10(|s|) && Pad(Number(s), |s|) == s
  {
    if s == "" {
    } else {
      var last := |s| - 1;
      PadNumber(s[..last]);
      assert s == s[..last] + [s[last]];
    }
  }

  lemma MonthBelow(d: Date)
    requires IsReal(d)
    ensures 1 <= d.month <= 12 && 1 <= d.day <= 31
  {
  }

  lemma PaddedHead(n: nat, width: nat, rest: string)
    requires n < Power10(width)
    ensures |Pad(n, width)| == width && AllDigits(Pad(n, width)) && Number(Pad(n, width)) == n
    ensures (Pad(n, width) + rest)[..width] == Pad(n, width)
  {
    NumberPad(n, width);
  }

  lemma ReadYear(d: Date, rest: string, e: Date)
    requires IsReal(d)
    ensures |WriteChunk(Year, d)| == 4
    ensures ReadChunk(Year, WriteChunk(Year, d) + rest, e) == Some(e.(year := d.year))
  {
    assert Power10(4) == 10000;
    hide Pad, Number, AllDigits, DaysIn;
    PaddedHead(d.year, 4, rest);
  }

  lemma ReadMonth(d: Date, rest: string, e: Date)
    requires IsReal(d)
    ensures |WriteChunk(Month, d)| == 2
    ensures ReadChunk(Month, WriteChunk(Month, d) + rest, e) == Some(e.(month := d.month))
  {
    assert Power10(2) == 100;
    hide Pad, Number, AllDigits, DaysIn;
    PaddedHead(d.month, 2, rest);
  }

  lemma ReadDay(d: Date, rest: string, e: Date)
    requires IsReal(d)
    ensures |WriteChunk(Day, d)| == 2
    ensures ReadChunk(Day, WriteChunk(Day, d) + rest, e) == Some(e.(day := d.day))
  {
    MonthBelow(d);
    assert Power10(2) == 100;
    hide Pad, Number, AllDigits, DaysIn;
    PaddedHead(d.day, 2, rest);
  }

  lemma ReadSep(c: char, d: Date, rest: string, e: Date)
    requires IsReal(d)
    ensures |WriteChunk(Sep(c), d)| == 1
    ensures ReadChunk(Sep(c), WriteChunk(Sep(c), d) + rest, e) == Some(e)
  {
    hide Pad, Number, AllDigits, DaysIn;
  }

  /** A printed chunk is read back, whatever follows it. */
  lemma ReadWritten(chunk: Chunk, d: Date, rest: string, e: Date)
    requires IsReal(d)
    ensures |WriteChunk(chunk, d)| == Width(chunk)
    ensures ReadChunk(chunk, WriteChunk(chunk, d) + rest, e)
         == Some(match chunk
                 case Year => e.(year := d.year)
                 case Month => e.(month := d.month)
                 case Day => e.(day := d.day)
                 case Sep(_) => e)
  {
    hide WriteChunk, ReadChunk, IsReal;
    match chunk
    case Year => ReadYear(d, rest, e);
    case Month => ReadMonth(d, rest, e);
    case Day => ReadDay(d, rest, e);
    case Sep(c) => ReadSep(c, d, rest, e);
  }

  predicate Known(layout: seq<Chunk>) {
    layout in LAYOUTS
  }

  /** No field is written twice. */
  predicate Once(layout: seq<Chunk>) {
    layout == [] || ((layout[0].Sep? || layout[0] !in layout[1..]) && Once(layout[1..]))
  }

  lemma KnownLayouts(layout: seq<Chunk>)
    requires Known(layout)
    ensures Once(layout) && Year in layout && Month in layout && Day in layout
  {
    assert layout == [layout[0], layout[1], layout[2], layout[3], layout[4]];
    assert layout[1..] == [layout[1], layout[2], layout[3], layout[4]];
    assert layout[1..][1..] == [layout[2], layout[3], layout[4]];
    assert layout[1..][1..][1..] == [layout[3], layout[4]];
    assert layout[1..][1..][1..][1..] == [layout[4]];
  }

  function Overwrite(layout: seq<Chunk>, d: Date, e: Date): (r: Date)
    ensures r.year == if Year in layout then d.year else e.year
    ensures r.month == if Month in layout then d.month else e.month
    ensures r.day == if Day in layout then d.day else e.day
  {
    if layout == [] then e
    else
      var next := match layout[0]
        case Year => e.(year := d.year)
        case Month => e.(month := d.month)
        case Day => e.(day := d.day)
        case Sep(_) => e;
      assert layout == [layout[0]] + layout[1..];
      Overwrite(layout[1..], d, next)
  }

  lemma {:induction false} ReadFormatted(layout: seq<Chunk>, d: Date, e: Date)
    requires IsReal(d)
    ensures ReadChunks(layout, Format(layout, d), e) == Some(Overwrite(layout, d, e))
  {
    if layout == [] {
    } else {
      var w := WriteChunk(layout[0], d);
      var rest := Format(layout[1..], d);
      ReadWritten(layout[0], d, rest, e);
      assert (w + rest)[|w|..] == rest;
      var next := ReadChunk(layout[0], w + rest, e).value;
      ReadFormatted(layout[1..], d, next);
    }
  }

  /** Every real date is read back from what any of the layouts prints. */
  lemma ParseFormat(layout: seq<Chunk>, d: Date)
    requires Known(layout) && IsReal(d)
    ensures Parse(layout, Format(layout, d)) == Some(d)
  {
    KnownLayouts(layout);
    ReadFormatted(layout, d, ZERO);
    assert Overwrite(layout, d, ZERO) == d;
  }

  /** The text shows the fields of the date, chunk by chunk. */
  predicate Spells(layout: seq<Chunk>, s: string, d: Date) {
    if layout == [] then s == ""
    else
      var w := Width(layout[0]);
      && |s| >= w
      && ChunkSpells(layout[0], s[..w], d)
      && Spells(layout[1..], s[w..], d)
  }

  predicate ChunkSpells(chunk: Chunk, head: string, d: Date) {
    match chunk
    case Year => AllDigits(head) && Number(head) == d.year
    case Month => AllDigits(head) && Number(head) == d.month && 1 <= d.month <= 12
    case Day => AllDigits(head) && Number(head) == d.day
    case Sep(c) => head == [c]
  }

  lemma {:induction false} ReadKeeps(layout: seq<Chunk>, s: string, e: Date)
    requires ReadChunks(layout, s, e).Some?
    ensures var r := ReadChunks(layout, s, e).value;
            && (Year !in layout ==> r.year == e.year)
            && (Month !in layout ==> r.month == e.month)
            && (Day !in layout ==> r.day == e.day)
  {
    if layout == [] {
    } else {
      ReadKeeps(layout[1..], s[Width(layout[0])..], ReadChunk(layout[0], s, e).value);
    }
  }

  lemma {:induction false} ReadSpells(layout: seq<Chunk>, s: string, e: Date)
    requires Once(layout) && ReadChunks(layout, s, e).Some?
    ensures Spells(layout, s, ReadChunks(layout, s, e).value)
  {
    if layout == [] {
    } else {
      var w := Width(layout[0]);
      var next := ReadChunk(layout[0], s, e).value;
      ReadKeeps(layout[1..], s[w..], next);
      ReadSpells(layout[1..], s[w..], next);
    }
  }

  lemma {:induction false} SpellsBounds(layout: seq<Chunk>, s: string, d: Date)
    requires Spells(layout, s, d)
    ensures Year in layout ==> 0 <= d.year <= 9999
    ensures Month in layout ==> 1 <= d.month <= 12
  {
    if layout == [] {
    } else {
      var w := Width(layout[0]);
      SpellsBounds(layout[1..], s[w..], d);
      assert Power10(4) == 10000;
      if layout[0] == Year {
        PadNumber(s[..w]);
      }
    }
  }

  /** The text that shows a field is the field's print. */
  lemma ChunkPrinted(chunk: Chunk, head: string, d: Date)
    requires IsReal(d) && |head| == Width(chunk) && ChunkSpells(chunk, head, d)
    ensures head == WriteChunk(chunk, d)
  {
    hide Pad, Number, AllDigits, IsReal;
    if !chunk.Sep? {
      PadNumber(head);
    }
  }

  lemma {:induction false} SpellsFormat(layout: seq<Chunk>, s: string, d: Date)
    requires Spells(layout, s, d) && IsReal(d)
    ensures s == Format(layout, d)
  {
    hide ChunkSpells, WriteChunk, IsReal, Width;
    if layout == [] {
    } else {
      var w := Width(layout[0]);
      ChunkPrinted(layout[0], s[..w], d);
      SpellsFormat(layout[1..], s[w..], d);
      assert s == s[..w] + s[w..];
    }
  }

  /** What a layout parses is a real date, and the text is exactly its print. */
  lemma FormatParse(layout: seq<Chunk>, s: string)
    requires Known(layout) && Parse(layout, s).Some?
    ensures IsReal(Parse(layout, s).value) && s == Format(layout, Parse(layout, s).value)
  {
    var d := Parse(layout, s).value;
    KnownLayouts(layout);
    ReadSpells(layout, s, ZERO);
    SpellsBounds(layout, s, d);
    SpellsFormat(layout, s, d);
  }

  lemma FormatShapes(d: Date)
    requires IsReal(d)
    ensures Format(ISO, d) == Pad(d.year, 4) + "-" + Pad(d.month, 2) + "-" + Pad(d.day, 2)
    ensures Format(DASHED, d) == Pad(d.day, 2) + "-" + Pad(d.month, 2) + "-" + Pad(d.year, 4)
    ensures Format(SLASHED, d) == Pad(d.day, 2) + "/" + Pad(d.month, 2) + "/" + Pad(d.year, 4)
  {
    FormatFive(Year, '-', Day, d);
    FormatFive(Day, '-', Year, d);
    FormatFive(Day, '/', Year, d);
  }

  lemma FormatHead(chunk: Chunk, rest: seq<Chunk>, d: Date)
    requires IsReal(d)
    ensures Format([chunk] + rest, d) == WriteChunk(chunk, d) + Format(rest, d)
  {
    hide WriteChunk, IsReal;
    assert ([chunk] + rest)[1..] == rest;
  }

  lemma FormatNothing(d: Date)
    requires IsReal(d)
    ensures Format([], d) == ""
  {
  }

  lemma FormatFive(a: Chunk, c: char, b: Chunk, d: Date)
    requires IsReal(d)
    ensures Format([a, Sep(c), Month, Sep(c), b], d)
         == WriteChunk(a, d) + [c] + Pad(d.month, 2) + [c] + WriteChunk(b, d)
  {
    hide Format, Pad, IsReal;
    FormatNothing(d);
    FormatHead(b, [], d);
    FormatHead(Sep(c), [b], d);
    FormatHead(Month, [Sep(c), b], d);
    FormatHead(Sep(c), [Month, Sep(c), b], d);
    FormatHead(a, [Sep(c), Month, Sep(c), b], d);
    assert [b] + [] == [b] && [Sep(c)] + [b] == [Sep(c), b];
    assert [Month] + [Sep(c), b] == [Month, Sep(c), b];
    assert [Sep(c)] + [Month, Sep(c), b] == [Sep(c), Month, Sep(c), b];
    assert [a] + [Sep(c), Month, Sep(c), b] == [a, Sep(c), Month, Sep(c), b];
  }

  /** No text is a date in two layouts. */
  lemma LayoutsDisjoint(layout: seq<Chunk>, layout': seq<Chunk>, s: string)
    requires Known(layout) && Known(layout')
    requires Parse(layout, s).Some? && Parse(layout', s).Some?
    ensures layout == layout'
  {
    FormatParse(layout, s);
    FormatParse(layout', s);
    Separators(layout, Parse(layout, s).value);
    Separators(layout', Parse(layout', s).value);
  }

  lemma Separators(layout: seq<Chunk>, d: Date)
    requires Known(layout) && IsReal(d)
    ensures var s := Format(layout, d);
            && |s| == 10
            && (layout == ISO ==> IsDigit(s[2]))
            && (layout == DASHED ==> s[2] == '-')
            && (layout == SLASHED ==> s[2] == '/')
            && Tight(s)
            && (forall c :: c in s ==> IsDigit(c) || c == '-' || c == '/')
            && (layout != SLASHED ==> forall c :: c in s ==> IsDigit(c) || c == '-')
  {
    FormatShapes(d);
    NumberPad(d.year, 4);
    NumberPad(d.month, 2);
    NumberPad(d.day, 2);
    DateText(Pad(d.year, 4), '-', Pad(d.month, 2), Pad(d.day, 2));
    DateText(Pad(d.day, 2), '-', Pad(d.month, 2), Pad(d.year, 4));
    DateText(Pad(d.day, 2), '/', Pad(d.month, 2), Pad(d.year, 4));
  }

  lemma DateText(x: string, c: char, m: string, y: string)
    requires AllDigits(x) && AllDigits(m) && AllDigits(y) && |m| == 2
    requires {|x|, |y|} == {2, 4} && c in {'-', '/'}
    ensures var s := x + [c] + m + [c] + y;
            && |s| == 10
            && s[2] == (if |x| == 2 then c else x[2])
            && Tight(s)
            && forall e :: e in s ==> IsDigit(e) || e == c
  {
    var s := x + [c] + m + [c] + y;
    assert |x| == 2 || |x| == 4;
    assert |y| == 2 || |y| == 4;
    assert {|x|, |y|} == {2, 4} ==> |x| + |y| == 6;
    assert s[0] == x[0] && s[9] == y[|y| - 1];
    forall e | e in s
      ensures IsDigit(e) || e == c
    {
      assert e in x || e == c || e in m || e in y;
    }
  }

  // ---- datestr and normalizeDate ----------------------------------------------

  function FirstParse(layouts: seq<seq<Chunk>>, s: string): Option<Date> {
    if layouts == [] then None
    else if Parse(layouts[0], s).Some? then Parse(layouts[0], s)
    else FirstParse(layouts[1..], s)
  }

  /** The date that a text denotes, if any layout reads it. */
  function DateOf(s: string): Option<Date> {
    FirstParse(LAYOUTS, Trim(s))
  }

  /** The `datestr` rule. */
  predicate DateStr(s: string) {
    DateOf(s).Some?
  }

  lemma {:induction false} FirstParseKnown(layouts: seq<seq<Chunk>>, s: string) returns (layout: seq<Chunk>)
    requires FirstParse(layouts, s).Some?
    ensures layout in layouts && Parse(layout, s) == FirstParse(layouts, s)
  {
    if Parse(layouts[0], s).Some? {
      layout := layouts[0];
    } else {
      layout := FirstParseKnown(layouts[1..], s);
    }
  }

  lemma DateOfReal(s: string)
    requires DateStr(s)
    ensures IsReal(DateOf(s).value)
  {
    var layout := FirstParseKnown(LAYOUTS, Trim(s));
    FormatParse(layout, Trim(s));
  }

  function NormalizeDate(s: string): string {
    if DateStr(s) then
      DateOfReal(s);
      Format(ISO, DateOf(s).value)
    else Trim(s)
  }

  /** The early-return loop over the layouts. */
  method ComputeNormalizeDate(s: string) returns (r: string)
    ensures r == NormalizeDate(s)
  {
    var t := Trim(s);
    for i := 0 to |LAYOUTS|
      invariant FirstParse(LAYOUTS, t) == FirstParse(LAYOUTS[i..], t)
    {
      var d := Parse(LAYOUTS[i], t);
      if d.Some? {
        DateOfReal(s);
        return Format(ISO, d.value);
      }
      assert LAYOUTS[i..][1..] == LAYOUTS[i + 1..];
    }
    return t;
  }

  /** Each date has one canonical text, reached from every layout and any
      surrounding white space. */
  lemma NormalizePrinted(layout: seq<Chunk>, d: Date, a: string, b: string)
    requires Known(layout) && IsReal(d) && Blank(a) && Blank(b)
    ensures var s := a + Format(layout, d) + b;
            DateOf(s) == Some(d) && NormalizeDate(s) == Format(ISO, d)
  {
    var t := Format(layout, d);
    Separators(layout, d);
    TrimPadded(a, t, b);
    ParseFormat(layout, d);
    FirstParseAny(layout, t);
  }

  lemma FirstParseAny(layout: seq<Chunk>, t: string)
    requires Known(layout) && Parse(layout, t).Some?
    ensures FirstParse(LAYOUTS, t) == Parse(layout, t)
  {
    forall other | Known(other) && Parse(other, t).Some?
      ensures other == layout
    {
      LayoutsDisjoint(layout, other, t);
    }
    var rest := LAYOUTS[1..];
    assert rest == [DASHED, SLASHED] && rest[1..] == [SLASHED];
    assert Known(ISO) && Known(DASHED) && Known(SLASHED);
    assert FirstParse([SLASHED], t) == Parse(SLASHED, t) || FirstParse([SLASHED], t).None?;
  }

  /** A text is accepted exactly when it normalises to the ISO print of a real date. */
  lemma DateStrMeaning(s: string)
    ensures DateStr(s) <==> exists d :: IsReal(d) && NormalizeDate(s) == Format(ISO, d)
  {
    if DateStr(s) {
      DateOfReal(s);
    }
    TrimIdempotent(s);
    assert DateOf(Trim(s)) == DateOf(s);
    if d :| IsReal(d) && NormalizeDate(s) == Format(ISO, d) {
      NormalizePrinted(ISO, d, "", "");
      assert "" + Format(ISO, d) + "" == NormalizeDate(s);
    }
  }

  /** Normalising twice is normalising once, on every text. */
  lemma NormalizeDateIdempotent(s: string)
    ensures NormalizeDate(NormalizeDate(s)) == NormalizeDate(s)
  {
    if DateStr(s) {
      DateOfReal(s);
      var d := DateOf(s).value;
      NormalizePrinted(ISO, d, "", "");
      assert "" + Format(ISO, d) + "" == NormalizeDate(s);
    } else {
      TrimIdempotent(s);
    }
  }

  /** Two accepted texts normalise alike exactly when they denote the same day. */
  lemma SameDay(s: string, t: string)
    requires DateStr(s) && DateStr(t)
    ensures NormalizeDate(s) == NormalizeDate(t) <==> DateOf(s) == DateOf(t)
  {
    DateOfReal(s);
    DateOfReal(t);
    ParseFormat(ISO, DateOf(s).value);
    ParseFormat(ISO, DateOf(t).value);
  }
}

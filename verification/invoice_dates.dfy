/** The two date readers of the invoice service. `parse_sef_date` reads
    the guest-form dates: ten `strptime` formats in a fixed order, then a
    `re.search` for a four-digit-year date anywhere in the text, then one
    for a two-digit-year date. `_parse_reservation_date` reads the
    reservation sheet's dates: four formats, then the four-digit-year
    search. Neither raises: an unreadable text is `None`. */
module InvoiceDates {
  import opened Base
  import opened Calendar
  import opened Strptime
  import opened StrptimeFacts
  import opened DateUtils

  /** The formats `parse_sef_date` tries, in order. Two-digit years come
      first, so `25-9-14` is the 14th of September 2025. */
  const SefFormats: seq<string> := [
    "%y-%m-%d", "%y/%m/%d", "%Y/%m/%d", "%Y-%m-%d",
    "%Y-%m-%d %H:%M:%S", "%Y/%m/%d %H:%M:%S",
    "%d/%m/%Y", "%d-%m-%Y", "%d/%m/%y", "%d-%m-%y"
  ]

  /** The formats `_parse_reservation_date` tries, in order. */
  const ReservationFormats: seq<string> := ["%Y-%m-%d", "%Y/%m/%d", "%d/%m/%Y", "%d-%m-%Y"]

  const DateSeparators: set<char> := {'-', '/'}

  /** `(\d{4})[-/](\d{1,2})[-/](\d{1,2})`. */
  const LongYearPattern: Pattern :=
    [Digits(0, 4, 4), OneOf(DateSeparators), Digits(1, 1, 2), OneOf(DateSeparators), Digits(2, 1, 2)]

  /** `(\d{2})[-/](\d{1,2})[-/](\d{1,2})`. */
  const ShortYearPattern: Pattern :=
    [Digits(0, 2, 2), OneOf(DateSeparators), Digits(1, 1, 2), OneOf(DateSeparators), Digits(2, 1, 2)]

  /** The fallback's own two-digit year rule: below 50 is 20xx, otherwise
      19xx (`strptime`'s `%y` turns at 69 instead). */
  function CenturyYear(yy: int): (y: int)
    ensures 0 <= yy < 50 ==> y == 2000 + yy
    ensures 50 <= yy ==> y == 1900 + yy
  {
    if yy < 50 then 2000 + yy else 1900 + yy
  }

  /** `date(int(y), int(m), int(d))` from the three groups of a match;
      `None` where `date` raises. */
  function GroupDate(caps: Captures, shortYear: bool): (r: Option<Date>)
    ensures r.Some? ==> Valid(r.value)
    ensures r.Some? ==> Group(0) in caps && Group(1) in caps && Group(2) in caps
                        && r.value.month == caps[Group(1)] && r.value.day == caps[Group(2)]
                        && r.value.year == (if shortYear then CenturyYear(caps[Group(0)]) else caps[Group(0)])
    ensures Group(0) in caps && Group(1) in caps && Group(2) in caps
            && Valid(Date(if shortYear then CenturyYear(caps[Group(0)]) else caps[Group(0)], caps[Group(1)], caps[Group(2)]))
            ==> r.Some?
  {
    if Group(0) in caps && Group(1) in caps && Group(2) in caps then
      var y := caps[Group(0)];
      var d := Date(if shortYear then CenturyYear(y) else y, caps[Group(1)], caps[Group(2)]);
      if Valid(d) then Some(d) else None
    else None
  }

  /** `m = re.search(pat, text)` followed by `date(...)` of its groups. */
  function SearchDate(pat: Pattern, text: string, shortYear: bool): (r: Option<Date>)
    ensures r.Some? ==> Valid(r.value) && Search(pat, text).Some?
    ensures Search(pat, text).Some? ==> r == GroupDate(Search(pat, text).value, shortYear)
  {
    match Search(pat, text)
    case Some(caps) => GroupDate(caps, shortYear)
    case None => None
  }

  /** `InvoiceService.parse_sef_date(raw)` for a cell text. */
  function ParseSefDate(raw: string): (r: Option<Date>)
    ensures Blank(raw) ==> r.None?
    ensures r.Some? ==> Valid(r.value)
    ensures !Blank(raw) && FirstFormat(Strip(raw), SefFormats).Some? ==> r == FirstFormat(Strip(raw), SefFormats)
    ensures !Blank(raw) && FirstFormat(Strip(raw), SefFormats).None?
            && SearchDate(LongYearPattern, Strip(raw), false).Some?
            ==> r == SearchDate(LongYearPattern, Strip(raw), false)
    ensures !Blank(raw) && FirstFormat(Strip(raw), SefFormats).None?
            && SearchDate(LongYearPattern, Strip(raw), false).None?
            ==> r == SearchDate(ShortYearPattern, Strip(raw), true)
  {
    StripEmptyIffBlank(raw);
    var text := Strip(raw);
    if text == [] then None
    else
      match FirstFormat(text, SefFormats)
      case Some(d) => Some(d)
      case None =>
        match SearchDate(LongYearPattern, text, false)
        case Some(d) => Some(d)
        case None => SearchDate(ShortYearPattern, text, true)
  }

  /** `InvoiceService._parse_reservation_date(raw)` for a cell text. */
  function ParseReservationDate(raw: string): (r: Option<Date>)
    ensures Blank(raw) ==> r.None?
    ensures r.Some? ==> Valid(r.value)
    ensures !Blank(raw) && FirstFormat(Strip(raw), ReservationFormats).Some?
            ==> r == FirstFormat(Strip(raw), ReservationFormats)
    ensures !Blank(raw) && FirstFormat(Strip(raw), ReservationFormats).None?
            ==> r == SearchDate(LongYearPattern, Strip(raw), false)
  {
    StripEmptyIffBlank(raw);
    var text := Strip(raw);
    if text == [] then None
    else
      match FirstFormat(text, ReservationFormats)
      case Some(d) => Some(d)
      case None => SearchDate(LongYearPattern, text, false)
  }

  // ---------------------------------------------------------------------
  // Formats that give up after their first piece

  /** A pattern whose second piece is the literal `c` fails on a text in
      which no way of matching the first piece is followed by `c`. */
  lemma {:induction false} LitAfterRejects(pat: Pattern, s: string, caps: Captures, cs: seq<Cand>, c: char)
    requires |pat| >= 2 && pat[1] == Lit(c)
    requires forall n :: 0 <= n < |cs| && cs[n].len < |s| ==> LowerChar(s[cs[n].len]) != LowerChar(c)
    ensures TryCands(pat, s, 0, caps, cs).None?
    decreases |cs|
  {
    if cs != [] {
      var k := cs[0].len;
      if k <= |s| {
        assert pat[1..][0] == Lit(c);
        assert Cands(Lit(c), s, k) == [];
        assert MatchFrom(pat[1..], s, k, Capture(caps, pat[0], cs[0])).None?;
      }
      LitAfterRejects(pat, s, caps, cs[1..], c);
    }
  }

  lemma RejectedAtSecondPiece(fmt: string, s: string, c: char)
    requires |Compile(fmt)| >= 2 && Compile(fmt)[1] == Lit(c)
    requires forall n :: 0 <= n < |Cands(Compile(fmt)[0], s, 0)| && Cands(Compile(fmt)[0], s, 0)[n].len < |s| ==>
               LowerChar(s[Cands(Compile(fmt)[0], s, 0)[n].len]) != LowerChar(c)
    ensures ParseDate(s, fmt).None?
  {
    LitAfterRejects(Compile(fmt), s, map[], Cands(Compile(fmt)[0], s, 0), c);
  }

  /** `%<c><sep>...`: a directive, then the separator. */
  lemma CompileDirThenSep(c: char, sep: char, rest: string)
    requires sep != '%' && !IsSpace(sep)
    ensures Compile(['%', c] + [sep] + rest) == [DirectiveOf(c), Lit(sep)] + Compile(rest)
  {
    var f := ['%', c] + [sep] + rest;
    assert f[2..] == [sep] + rest;
    assert ([sep] + rest)[1..] == rest;
    CompileLit([sep] + rest);
    CompileDir(f);
  }

  lemma CompileShortYearFirst(sep: char, rest: string)
    requires sep != '%' && !IsSpace(sep)
    ensures Compile("%y" + [sep] + rest) == [Directive(ShortYear), Lit(sep)] + Compile(rest)
  {
    assert "%y" == ['%', 'y'];
    CompileDirThenSep('y', sep, rest);
  }

  lemma CompileYearFirst(sep: char, rest: string)
    requires sep != '%' && !IsSpace(sep)
    ensures Compile("%Y" + [sep] + rest) == [Directive(Year), Lit(sep)] + Compile(rest)
  {
    assert "%Y" == ['%', 'Y'];
    CompileDirThenSep('Y', sep, rest);
  }

  lemma CompileDayFirst(sep: char, rest: string)
    requires sep != '%' && !IsSpace(sep)
    ensures Compile("%d" + [sep] + rest) == [Directive(Day), Lit(sep)] + Compile(rest)
  {
    assert "%d" == ['%', 'd'];
    CompileDirThenSep('d', sep, rest);
  }

  /** `%y<sep>...` rejects a text whose third character is a digit: the two
      year digits must be followed by the separator. */
  lemma ShortYearFirstRejects(s: string, sep: char, rest: string)
    requires sep != '%' && !IsSpace(sep) && !IsDigit(sep) && !('A' <= sep <= 'Z')
    requires |s| >= 3 && IsDigit(s[2])
    ensures ParseDate(s, "%y" + [sep] + rest).None?
  {
    CompileShortYearFirst(sep, rest);
    RejectedAtSecondPiece("%y" + [sep] + rest, s, sep);
  }

  /** `%Y<sep>...` rejects a text whose fifth character is another
      separator. */
  lemma YearFirstOtherSeparator(s: string, sep: char, rest: string)
    requires sep != '%' && !IsSpace(sep) && !('A' <= sep <= 'Z')
    requires |s| >= 5 && s[4] != sep && !('A' <= s[4] <= 'Z')
    ensures ParseDate(s, "%Y" + [sep] + rest).None?
  {
    CompileYearFirst(sep, rest);
    RejectedAtSecondPiece("%Y" + [sep] + rest, s, sep);
  }

  /** `%d<sep>...` rejects `DD<other>...` with a two-digit day: neither one
      nor two day digits are followed by the separator. */
  lemma DayFirstOtherSeparator(s: string, sep: char, rest: string)
    requires sep != '%' && !IsSpace(sep) && !IsDigit(sep) && !('A' <= sep <= 'Z')
    requires |s| >= 3 && IsDigit(s[1]) && s[2] != sep && !('A' <= s[2] <= 'Z')
    ensures ParseDate(s, "%d" + [sep] + rest).None?
  {
    var fmt := "%d" + [sep] + rest;
    CompileDayFirst(sep, rest);
    assert Compile(fmt)[0] == Directive(Day) && Compile(fmt)[1] == Lit(sep);
    var cs := Cands(Directive(Day), s, 0);
    DayCandsShort(s);
    assert LowerChar(s[1]) != LowerChar(sep) && LowerChar(s[2]) != LowerChar(sep);
    forall n | 0 <= n < |cs| && cs[n].len < |s| ensures LowerChar(s[cs[n].len]) != LowerChar(sep) {
      assert cs[n].len == 1 || cs[n].len == 2;
    }
    RejectedAtSecondPiece(fmt, s, sep);
  }

  /** Every way of matching at most two characters. */
  predicate ShortCands(cs: seq<Cand>) {
    forall n :: 0 <= n < |cs| ==> cs[n].len <= 2
  }

  lemma ShortAppend(a: seq<Cand>, b: seq<Cand>)
    requires ShortCands(a) && ShortCands(b)
    ensures ShortCands(a + b)
  {
    forall n | 0 <= n < |a + b| ensures (a + b)[n].len <= 2 {
      if n >= |a| {
        assert (a + b)[n] == b[n - |a|];
      }
    }
  }

  /** `%d` takes one or two characters. */
  lemma DayCandsShort(s: string)
    ensures ShortCands(Cands(Directive(Day), s, 0))
  {
    var p1 := Two(CharIn(s, 0, '3', '3') && CharIn(s, 1, '0', '1'), 30 + D(s, 1));
    var p2 := Two(CharIn(s, 0, '1', '2') && CharIn(s, 1, '0', '9'), 10 * D(s, 0) + D(s, 1));
    var p3 := Two(CharIn(s, 0, '0', '0') && CharIn(s, 1, '1', '9'), D(s, 1));
    var p4 := One(CharIn(s, 0, '1', '9'), D(s, 0));
    var p5 := Two(CharIn(s, 0, ' ', ' ') && CharIn(s, 1, '1', '9'), D(s, 1));
    assert Cands(Directive(Day), s, 0) == p1 + p2 + p3 + p4 + p5;
    ShortAppend(p1, p2);
    ShortAppend(p1 + p2, p3);
    ShortAppend(p1 + p2 + p3, p4);
    ShortAppend(p1 + p2 + p3 + p4, p5);
  }

  // ---------------------------------------------------------------------
  // What the readers accept

  lemma IsoShape(d: Date)
    requires Valid(d)
    ensures var s := Iso(d); |s| == 10 && IsDigit(s[0]) && IsDigit(s[2]) && s[4] == '-' && IsDigit(s[9])
  {
    var s := Iso(d);
    assert s[0] == Pad4(d.year)[0] && s[2] == Pad4(d.year)[2] && s[9] == Pad2(d.day)[1];
  }

  /** A text that starts and ends with a digit is its own strip and is
      not blank. */
  lemma DigitBounded(s: string)
    requires s != [] && IsDigit(s[0]) && IsDigit(s[|s| - 1])
    ensures Strip(s) == s && !Blank(s)
  {
    assert !IsSpace(s[0]) && !IsSpace(s[|s| - 1]);
    StripOfStripped(s);
  }

  /** A text bounded by digits that one of the SEF formats reads is read
      by the first such format. */
  lemma SefByFormats(s: string, d: Date)
    requires s != [] && IsDigit(s[0]) && IsDigit(s[|s| - 1])
    requires FirstFormat(s, SefFormats) == Some(d)
    ensures ParseSefDate(s) == Some(d)
  {
    DigitBounded(s);
  }

  lemma ReservationByFormats(s: string, d: Date)
    requires s != [] && IsDigit(s[0]) && IsDigit(s[|s| - 1])
    requires FirstFormat(s, ReservationFormats) == Some(d)
    ensures ParseReservationDate(s) == Some(d)
  {
    DigitBounded(s);
  }

  lemma SefFormatsReadIso(d: Date)
    requires Valid(d)
    ensures FirstFormat(Iso(d), SefFormats) == Some(d)
  {
    var s := Iso(d);
    IsoShape(d);
    var f1 := SefFormats[1..];
    var f2 := f1[1..];
    var f3 := f2[1..];
    assert SefFormats[0] == "%y" + "-" + "%m-%d";
    assert f1[0] == "%y" + "/" + "%m/%d";
    assert f2[0] == "%Y" + "/" + "%m/%d";
    assert f3[0] == "%Y-%m-%d";
    ShortYearFirstRejects(s, '-', "%m-%d");
    ShortYearFirstRejects(s, '/', "%m/%d");
    YearFirstOtherSeparator(s, '/', "%m/%d");
    ParseIso(d);
    SkipFormat(s, SefFormats);
    SkipFormat(s, f1);
    SkipFormat(s, f2);
    TakeFormat(s, f3);
  }

  /** The SEF reader reads a canonical date back: the two-digit-year and
      slashed formats before `%Y-%m-%d` all give up on it. */
  lemma SefReadsIso(d: Date)
    requires Valid(d)
    ensures ParseSefDate(Iso(d)) == Some(d)
  {
    IsoShape(d);
    SefFormatsReadIso(d);
    SefByFormats(Iso(d), d);
  }

  /** The reservation reader reads a canonical date back. */
  lemma ReservationReadsIso(d: Date)
    requires Valid(d)
    ensures ParseReservationDate(Iso(d)) == Some(d)
  {
    IsoShape(d);
    ParseIso(d);
    assert ReservationFormats[0] == "%Y-%m-%d";
    TakeFormat(Iso(d), ReservationFormats);
    ReservationByFormats(Iso(d), d);
  }

  lemma DmyShape(d: Date, sep: char)
    requires Valid(d)
    ensures var s := DmyText(d, sep); |s| == 10 && IsDigit(s[0]) && IsDigit(s[1]) && s[2] == sep && IsDigit(s[9])
  {
    var s := DmyText(d, sep);
    assert s[0] == Pad2(d.day)[0] && s[1] == Pad2(d.day)[1] && s[9] == Pad4(d.year)[3];
  }

  /** The reservation format list reaches its third and fourth formats
      once the year-first ones give up. */
  lemma ReservationFormatsAfterYear(s: string)
    requires ParseDate(s, "%Y-%m-%d").None? && ParseDate(s, "%Y/%m/%d").None?
    ensures ParseDate(s, "%d/%m/%Y").Some? ==> FirstFormat(s, ReservationFormats) == ParseDate(s, "%d/%m/%Y")
    ensures ParseDate(s, "%d/%m/%Y").None? ==> FirstFormat(s, ReservationFormats) == ParseDate(s, "%d-%m-%Y")
  {
    var f1 := ReservationFormats[1..];
    var f2 := f1[1..];
    var f3 := f2[1..];
    assert ReservationFormats[0] == "%Y-%m-%d" && f1[0] == "%Y/%m/%d";
    assert f2[0] == "%d/%m/%Y" && f3 == ["%d-%m-%Y"];
    SkipFormat(s, ReservationFormats);
    SkipFormat(s, f1);
    if ParseDate(s, "%d/%m/%Y").Some? {
      TakeFormat(s, f2);
    } else {
      SkipFormat(s, f2);
      assert f3[1..] == [];
    }
  }

  lemma ReservationFormatsReadDayFirst(d: Date)
    requires Valid(d)
    ensures FirstFormat(DmyText(d, '/'), ReservationFormats) == Some(d)
  {
    var s := DmyText(d, '/');
    DmyShape(d, '/');
    YearFormatsReject(s);
    ParseDmy(d);
    ReservationFormatsAfterYear(s);
  }

  /** The reservation reader takes `DD/MM/YYYY` day-first, whatever the
      day. */
  lemma ReservationReadsDayFirst(d: Date)
    requires Valid(d)
    ensures ParseReservationDate(DmyText(d, '/')) == Some(d)
  {
    DmyShape(d, '/');
    ReservationFormatsReadDayFirst(d);
    ReservationByFormats(DmyText(d, '/'), d);
  }

  lemma ParseDmyDashed(d: Date)
    requires Valid(d)
    ensures ParseDate(DmyText(d, '-'), "%d-%m-%Y") == Some(d)
  {
    MatchDmy(d, '-');
    BuildYmd(d);
    CompileDmy();
  }

  lemma ReservationFormatsReadDayFirstDashed(d: Date)
    requires Valid(d)
    ensures FirstFormat(DmyText(d, '-'), ReservationFormats) == Some(d)
  {
    var s := DmyText(d, '-');
    DmyShape(d, '-');
    YearFormatsReject(s);
    DayFirstOtherSeparator(s, '/', "%m/%Y");
    assert "%d" + ['/'] + "%m/%Y" == "%d/%m/%Y";
    ParseDmyDashed(d);
    ReservationFormatsAfterYear(s);
  }

  /** ... and `DD-MM-YYYY` too, after the slashed day-first format gives
      up on it. */
  lemma ReservationReadsDayFirstDashed(d: Date)
    requires Valid(d)
    ensures ParseReservationDate(DmyText(d, '-')) == Some(d)
  {
    DmyShape(d, '-');
    ReservationFormatsReadDayFirstDashed(d);
    ReservationByFormats(DmyText(d, '-'), d);
  }

  // ---------------------------------------------------------------------
  // Two-digit years with an unpadded month

  /** `YY-M-DD`: a two-digit year, a one-digit month, a two-digit day. */
  function ShortText(yy: int, m: int, dd: int): (r: string)
    requires 0 <= yy <= 99 && 1 <= m <= 9 && 1 <= dd <= 31
    ensures |r| == 7
  {
    Pad2(yy) + "-" + [DigitChar(m)] + "-" + Pad2(dd)
  }

  lemma ShortYearCand(s: string, yy: int)
    requires 0 <= yy <= 99 && 2 <= |s| && s[..2] == Pad2(yy)
    ensures Cands(Directive(ShortYear), s, 0) == [Cand(2, yy)]
  {
    assert s[0] == Pad2(yy)[0] && s[1] == Pad2(yy)[1];
    DigitRoundTrip(yy / 10);
    DigitRoundTrip(yy % 10);
  }

  lemma OneDigitMonthCand(s: string, i: nat, m: int)
    requires 1 <= m <= 9 && i + 2 <= |s| && s[i] == DigitChar(m) && !IsDigit(s[i + 1])
    ensures Cands(Directive(Month), s, i) == [Cand(1, m)]
  {
    DigitRoundTrip(m);
  }

  function ShortCaptures(yy: int, m: int, dd: int): Captures {
    map[ShortYear := yy, Month := m, Day := dd]
  }

  lemma MatchShortText(yy: int, m: int, dd: int)
    requires 0 <= yy <= 99 && 1 <= m <= 9 && 1 <= dd <= 31
    ensures MatchFrom(Compile("%y-%m-%d"), ShortText(yy, m, dd), 0, map[])
            == Some((ShortCaptures(yy, m, dd), 7))
  {
    var s := ShortText(yy, m, dd);
    CompileShortYearFirst('-', "%m-%d");
    assert "%y-%m-%d" == "%y" + "-" + "%m-%d";
    var p := Compile("%y-%m-%d");
    assert p == [Directive(ShortYear), Lit('-'), Directive(Month), Lit('-'), Directive(Day)];
    var c1 := map[ShortYear := yy];
    var c2 := map[ShortYear := yy, Month := m];
    var r := (ShortCaptures(yy, m, dd), 7);
    assert s[5..7] == Pad2(dd);
    DayCand(s, 5, dd);
    assert p[4..][1..] == [];
    StepFirst(p[4..], s, 5, c2, Cand(2, dd), r);
    LitCand(s, 4, '-');
    assert p[3..][1..] == p[4..];
    StepFirst(p[3..], s, 4, c2, Cand(1, 0), r);
    OneDigitMonthCand(s, 3, m);
    assert p[2..][1..] == p[3..];
    StepFirst(p[2..], s, 3, c1, Cand(1, m), r);
    LitCand(s, 2, '-');
    assert p[1..][1..] == p[2..];
    StepFirst(p[1..], s, 2, c1, Cand(1, 0), r);
    assert s[..2] == Pad2(yy);
    ShortYearCand(s, yy);
    StepFirst(p, s, 0, map[], Cand(2, yy), r);
  }

  lemma ParseShortText(yy: int, m: int, dd: int)
    requires 0 <= yy <= 99 && 1 <= m <= 9 && 1 <= dd <= 31
    requires Valid(Date(PivotYear(yy), m, dd))
    ensures ParseDate(ShortText(yy, m, dd), "%y-%m-%d") == Some(Date(PivotYear(yy), m, dd))
  {
    MatchShortText(yy, m, dd);
    assert Build(ShortCaptures(yy, m, dd)) == Some(DateTime(Date(PivotYear(yy), m, dd), 0, 0, 0));
  }

  /** The first SEF format reads `YY-M-DD` with `strptime`'s pivot:
      `25-9-14` is 2025-09-14 and `70-1-05` is 1970-01-05. */
  lemma SefReadsShortYear(yy: int, m: int, dd: int)
    requires 0 <= yy <= 99 && 1 <= m <= 9 && 1 <= dd <= 31
    requires Valid(Date(PivotYear(yy), m, dd))
    ensures ParseSefDate(ShortText(yy, m, dd)) == Some(Date(PivotYear(yy), m, dd))
  {
    var s := ShortText(yy, m, dd);
    ParseShortText(yy, m, dd);
    assert SefFormats[0] == "%y-%m-%d";
    TakeFormat(s, SefFormats);
    assert s[0] == Pad2(yy)[0] && s[6] == Pad2(dd)[1];
    SefByFormats(s, Date(PivotYear(yy), m, dd));
  }

  /** The example of the format list's first comment. */
  lemma SefExample()
    ensures ShortText(25, 9, 14) == "25-9-14"
    ensures ParseSefDate(ShortText(25, 9, 14)) == Some(Date(2025, 9, 14))
  {
    SefReadsShortYear(25, 9, 14);
    ExampleText();
  }

  lemma ExampleText()
    ensures ShortText(25, 9, 14) == "25-9-14"
  {
    var a := Pad2(25);
    var b := Pad2(14);
    assert a[0] == '2' && a[1] == '5';
    assert b[0] == '1' && b[1] == '4';
    assert DigitChar(9) == '9';
  }
}

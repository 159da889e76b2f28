/** `normalize_date` / `normalize_date_safe`: any date value a sheet or
    form may hold becomes canonical `YYYY-MM-DD` text. Numbers are
    spreadsheet serials (days after 1899-12-30); texts are trimmed and tried
    against four formats in a fixed order. */
module DateUtils {
  import opened Base
  import opened Calendar
  import opened Strptime
  import opened StrptimeFacts

  /** Day zero of Google Sheets / Excel serial dates. */
  const SheetEpoch: Date := Date(1899, 12, 30)

  /** The formats `normalize_date` tries, in order: ISO, ISO with slashes,
      then US month-first before day-first. */
  const Formats: seq<string> := ["%Y-%m-%d", "%Y/%m/%d", "%m/%d/%Y", "%d/%m/%Y"]

  /** The date a serial number denotes: `epoch + timedelta(days=int(x))`,
      `None` where Python overflows. */
  function SerialDate(x: real): (r: Option<Date>)
    ensures r.Some? <==> 1 <= Ordinal(SheetEpoch) + Trunc(x) <= MaxOrdinal
    ensures r.Some? ==> Valid(r.value) && Ordinal(r.value) - Ordinal(SheetEpoch) == Trunc(x)
  {
    AddDays(SheetEpoch, Trunc(x))
  }

  /** `normalize_date(value)`. */
  function NormalizeDate(v: Value): (r: Result<string>)
    ensures v.VNone? ==> r.Err?
    ensures v.VStr? && Blank(v.s) ==> r.Err?
    ensures v.VNum? ==> (r.Ok? <==> SerialDate(v.x).Some?)
    ensures v.VNum? && r.Ok? ==> r.value == Iso(SerialDate(v.x).value)
    ensures v.VStr? && !Blank(v.s) ==> r == FromFormats(Strip(v.s))
    ensures r.Ok? ==> exists d :: Valid(d) && r.value == Iso(d)
  {
    match v
    case VNone => Err("Date value cannot be None")
    case VNum(x) =>
      (match SerialDate(x)
       case Some(d) => Ok(Iso(d))
       case None => Err("Invalid serial date number"))
    case VStr(s) =>
      var t := Strip(s);
      StripEmptyIffBlank(s);
      if t == [] then Err("Date value is empty or whitespace only")
      else FromFormats(t)
  }

  /** The first of `Formats` that reads the trimmed text, written back as
      `YYYY-MM-DD`. */
  function FromFormats(t: string): (r: Result<string>)
    ensures r.Ok? <==> FirstFormat(t, Formats).Some?
    ensures r.Ok? ==> r.value == Iso(FirstFormat(t, Formats).value)
  {
    match FirstFormat(t, Formats)
    case Some(d) => Ok(Iso(d))
    case None => Err("Cannot parse date")
  }

  /** `normalize_date_safe(value)`: "" instead of an exception. */
  function NormalizeDateSafe(v: Value): (r: string)
    ensures v.VNone? ==> r == ""
    ensures NormalizeDate(v).Err? ==> r == ""
    ensures NormalizeDate(v).Ok? ==> r == NormalizeDate(v).value && r != ""
  {
    if v.VNone? then ""
    else
      match NormalizeDate(v)
      case Ok(s) => s
      case Err(_) => ""
  }

  // ---------------------------------------------------------------------
  // Properties

  /** Surrounding whitespace does not matter. */
  lemma TrimInsensitive(s: string)
    ensures NormalizeDate(VStr(s)) == NormalizeDate(VStr(Strip(s)))
  {
    var t := Strip(s);
    assert LStrip(t) == t;
    assert RStrip(t) == t;
  }

  /** A serial is read through `int()`: any two numbers that truncate to
      the same integer give the same date (45212 and 45212.0 alike). */
  lemma SerialTruncates(x: real, y: real)
    requires Trunc(x) == Trunc(y)
    ensures NormalizeDate(VNum(x)) == NormalizeDate(VNum(y))
  {
  }

  lemma EpochOrdinal()
    ensures Ordinal(SheetEpoch) == 693594
  {
    assert DaysBeforeYear(1899) == 693230;
  }

  /** Serial 45212 is 2023-10-13. */
  lemma Serial45212()
    ensures NormalizeDate(VNum(45212.0)) == Ok("2023-10-13")
  {
    SerialDate45212();
    Iso20231013();
  }

  lemma SerialDate45212()
    ensures SerialDate(45212.0) == Some(Date(2023, 10, 13))
  {
    var d := Date(2023, 10, 13);
    EpochOrdinal();
    Ordinal20231013();
    assert Trunc(45212.0) == 45212;
    FromOrdinalOfOrdinal(d);
  }

  lemma Ordinal20231013()
    ensures Ordinal(Date(2023, 10, 13)) == 738806
  {
    assert DaysBeforeYear(2023) == 738520;
  }

  lemma Iso20231013()
    ensures Iso(Date(2023, 10, 13)) == "2023-10-13"
  {
    var d := Date(2023, 10, 13);
    assert Pad4(2023) == "2023";
    assert Pad2(10) == "10";
    assert Pad2(13) == "13";
  }

  lemma IsoIsStripped(d: Date)
    requires Valid(d)
    ensures Strip(Iso(d)) == Iso(d) && Iso(d) != []
  {
    var s := Iso(d);
    assert LStrip(s) == s;
    assert RStrip(s) == s;
  }

  lemma IsoFirstFormat(d: Date)
    requires Valid(d)
    ensures FirstFormat(Iso(d), Formats) == Some(d)
  {
    ParseIso(d);
    assert Formats[0] == "%Y-%m-%d";
  }

  /** Canonical output normalises to itself. */
  lemma NormalizeIdempotent(d: Date)
    requires Valid(d)
    ensures NormalizeDate(VStr(Iso(d))) == Ok(Iso(d))
  {
    IsoIsStripped(d);
    IsoFirstFormat(d);
  }

  /** Whatever `normalize_date` returns, normalising it again returns it
      unchanged. */
  lemma OutputIsFixedPoint(v: Value)
    requires NormalizeDate(v).Ok?
    ensures NormalizeDate(VStr(NormalizeDate(v).value)) == NormalizeDate(v)
  {
    var d :| Valid(d) && NormalizeDate(v).value == Iso(d);
    NormalizeIdempotent(d);
  }

  /** The ends of a date text are digits, so trimming leaves it alone. */
  lemma NumericEndsStripped(s: string)
    requires |s| == 10 && IsDigit(s[0]) && IsDigit(s[9])
    ensures Strip(s) == s && !Blank(s)
  {
    StripOfStripped(s);
  }

  lemma YearFormatsReject(s: string)
    requires |s| == 10 && !IsDigit(s[2])
    ensures ParseDate(s, "%Y-%m-%d").None? && ParseDate(s, "%Y/%m/%d").None?
  {
    assert !AllDigits(s[..4]) by { assert s[..4][2] == s[2]; }
    YearFirstRejects(s, "%Y-%m-%d");
    YearFirstRejects(s, "%Y/%m/%d");
  }

  /** Reading a trimmed, non-empty text comes down to the format list. */
  lemma ReadsByFormats(s: string)
    requires |s| == 10 && IsDigit(s[0]) && IsDigit(s[9])
    ensures NormalizeDate(VStr(s)) == FromFormats(s)
  {
    var t := Strip(s);
    assert t == s by { NumericEndsStripped(s); }
    assert t != [];
  }

  lemma SkipFormat(s: string, fmts: seq<string>)
    requires fmts != [] && ParseDate(s, fmts[0]).None?
    ensures FirstFormat(s, fmts) == FirstFormat(s, fmts[1..])
  {
  }

  lemma TakeFormat(s: string, fmts: seq<string>)
    requires fmts != [] && ParseDate(s, fmts[0]).Some?
    ensures FirstFormat(s, fmts) == ParseDate(s, fmts[0])
  {
  }

  /** A slashed text is read month-first whenever it can be: `12/08/2025`
      is the 8th of December. */
  lemma MonthFirst(d: Date)
    requires Valid(d)
    ensures NormalizeDate(VStr(MdyText(d, '/'))) == Ok(Iso(d))
  {
    var s := MdyText(d, '/');
    assert s[0] == Pad2(d.month)[0] && s[9] == Pad4(d.year)[3] && s[2] == '/';
    YearFormatsReject(s);
    ParseMdy(d);
    var f1 := Formats[1..];
    var f2 := f1[1..];
    assert Formats[0] == "%Y-%m-%d" && f1[0] == "%Y/%m/%d" && f2[0] == "%m/%d/%Y";
    SkipFormat(s, Formats);
    SkipFormat(s, f1);
    TakeFormat(s, f2);
    ReadsByFormats(s);
  }

  /** A day-first text whose day cannot be a month falls through to
      `%d/%m/%Y`: `15/12/2025` is the 15th of December. */
  lemma DayFirstFallback(d: Date)
    requires Valid(d) && d.day > 12
    ensures NormalizeDate(VStr(DmyText(d, '/'))) == Ok(Iso(d))
  {
    var s := DmyText(d, '/');
    assert s[0] == Pad2(d.day)[0] && s[9] == Pad4(d.year)[3] && s[2] == '/';
    YearFormatsReject(s);
    MdyRejectsDayFirst(d);
    ParseDmy(d);
    var f1 := Formats[1..];
    var f2 := f1[1..];
    var f3 := f2[1..];
    assert Formats[0] == "%Y-%m-%d" && f1[0] == "%Y/%m/%d" && f2[0] == "%m/%d/%Y" && f3[0] == "%d/%m/%Y";
    SkipFormat(s, Formats);
    SkipFormat(s, f1);
    SkipFormat(s, f2);
    TakeFormat(s, f3);
    ReadsByFormats(s);
  }

  lemma FormatsNeedSeparators()
    ensures forall k :: 0 <= k < |Formats| ==> HasSeparator(Compile(Formats[k]))
  {
    forall k | 0 <= k < |Formats| ensures HasSeparator(Compile(Formats[k])) {
      if k == 0 {
        CompileYmdDash();
        SeparatorSecond(YmdPattern('-'));
      } else if k == 1 {
        CompileYmdSlash();
        SeparatorSecond(YmdPattern('/'));
      } else if k == 2 {
        CompileMdy();
        SeparatorSecond(MdyPattern('/'));
      } else {
        CompileDmy();
        SeparatorSecond(DmyPattern('/'));
      }
    }
  }

  lemma SeparatorSecond(pat: Pattern)
    requires |pat| >= 2 && pat[1].Lit? && !IsDigit(pat[1].c)
    ensures HasSeparator(pat)
  {
    assert HasSeparator(pat[1..]);
  }

  lemma NoneReads(s: string, fmts: seq<string>)
    requires forall k :: 0 <= k < |fmts| ==> ParseDate(s, fmts[k]).None?
    ensures FirstFormat(s, fmts).None?
  {
  }

  lemma NoFormatReadsDigits(s: string)
    requires AllDigits(s)
    ensures FirstFormat(s, Formats).None?
  {
    FormatsNeedSeparators();
    forall k | 0 <= k < |Formats|
      ensures ParseDate(s, Formats[k]).None?
    {
      DigitsRejected(s, Formats[k]);
    }
    NoneReads(s, Formats);
  }

  /** A numeric text is never read as a serial number: `"45212"` is
      rejected, although the number 45212 is a date. */
  lemma NumericTextNotSerial(s: string)
    requires AllDigits(s)
    ensures NormalizeDate(VStr(s)).Err?
  {
    var t := Strip(s);
    assert t == s && t != [] by { StripOfStripped(s); }
    NoFormatReadsDigits(s);
  }
}

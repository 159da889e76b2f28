/** Python's `datetime.strptime` and the few `re` patterns the services use
    to read dates, as one small backtracking matcher.

    `strptime` compiles its format into a regular expression: each
    directive becomes a fixed alternation (`%m` is `1[0-2]|0[1-9]|[1-9]`,
    `%d` is `3[01]|[12]\d|0[1-9]|[1-9]| [1-9]`, ...), a whitespace run becomes
    `\s+`, any other character matches itself ignoring case. The regex is
    matched at the start of the text; the first match in backtracking order
    is kept, and the parse fails if it does not reach the end of the text
    ("unconverted data remains") or if the fields do not make a valid
    `datetime`. `re.search` tries the same kind of pattern at every start
    position and keeps the leftmost match. */
module Strptime {
  import opened Base
  import opened Calendar

  /** The field a directive or a regex group captures. */
  datatype Field = Year | ShortYear | Month | Day | Hour | Minute | Second | Group(n: nat)

  /** One element of a compiled pattern. */
  datatype Piece =
    | Directive(field: Field)                 // %Y %y %m %d %H %M %S
    | Lit(c: char)                            // a literal character
    | Spaces                                  // \s+
    | Digits(group: nat, lo: nat, hi: nat)    // (\d{lo,hi}), greedy
    | OneOf(cs: set<char>)                    // [-/]
    | Never                                   // a directive strptime rejects

  type Pattern = seq<Piece>

  /** One way a piece can match at a position: how many characters it
      consumes and the number it reads (0 for pieces that capture nothing). */
  datatype Cand = Cand(len: nat, value: int)

  /** The date and time fields `datetime.strptime` fills. */
  datatype DateTime = DateTime(date: Date, hour: int, minute: int, second: int)

  // ---------------------------------------------------------------------
  // Compiling a format

  function DirectiveOf(c: char): Piece {
    if c == 'Y' then Directive(Year)
    else if c == 'y' then Directive(ShortYear)
    else if c == 'm' then Directive(Month)
    else if c == 'd' then Directive(Day)
    else if c == 'H' then Directive(Hour)
    else if c == 'M' then Directive(Minute)
    else if c == 'S' then Directive(Second)
    else Never
  }

  /** The regex `strptime` builds from a format string. */
  function Compile(fmt: string): Pattern
    decreases |fmt|
  {
    if fmt == [] then []
    else if fmt[0] == '%' && |fmt| >= 2 then [DirectiveOf(fmt[1])] + Compile(fmt[2..])
    else if IsSpace(fmt[0]) then [Spaces] + Compile(LStrip(fmt))
    else [Lit(fmt[0])] + Compile(fmt[1..])
  }

  // ---------------------------------------------------------------------
  // Candidates of one piece

  predicate CharIn(s: string, i: nat, lo: char, hi: char) {
    i < |s| && lo <= s[i] <= hi
  }

  /** The digit at `i`, or 0 past the end (only read where a digit is). */
  function D(s: string, i: nat): int {
    if i < |s| && IsDigit(s[i]) then DigitValue(s[i]) else 0
  }

  /** `[x-y]z` style two-character alternative. */
  function Two(ok: bool, value: int): seq<Cand> {
    if ok then [Cand(2, value)] else []
  }

  function One(ok: bool, value: int): seq<Cand> {
    if ok then [Cand(1, value)] else []
  }

  /** The number of characters from `i` on satisfying `IsSpace`. */
  function SpaceRun(s: string, i: nat): (k: nat)
    requires i <= |s|
    ensures i + k <= |s|
    ensures forall j :: i <= j < i + k ==> IsSpace(s[j])
    ensures i + k == |s| || !IsSpace(s[i + k])
    decreases |s| - i
  {
    if i < |s| && IsSpace(s[i]) then 1 + SpaceRun(s, i + 1) else 0
  }

  /** The number of ASCII digits from `i` on, at most `hi`. */
  function DigitRun(s: string, i: nat, hi: nat): (k: nat)
    requires i <= |s|
    ensures k <= hi && i + k <= |s|
    ensures forall j :: i <= j < i + k ==> IsDigit(s[j])
    ensures k == hi || i + k == |s| || !IsDigit(s[i + k])
    decreases hi
  {
    if hi > 0 && i < |s| && IsDigit(s[i]) then 1 + DigitRun(s, i + 1, hi - 1) else 0
  }

  /** Candidate lengths `k, k-1, ..., lo` of a greedy quantifier. */
  function Downto(s: string, i: nat, k: nat, lo: nat): (r: seq<Cand>)
    requires i + k <= |s|
    requires forall j :: i <= j < i + k ==> IsDigit(s[j])
    ensures forall n :: 0 <= n < |r| ==> 1 <= r[n].len && i + r[n].len <= |s|
    decreases k
  {
    if k < lo || k == 0 then []
    else [Cand(k, DigitsValue(s[i..i + k]))] + Downto(s, i, k - 1, lo)
  }

  function SpaceCands(s: string, i: nat, k: nat): (r: seq<Cand>)
    requires i + k <= |s|
    ensures forall n :: 0 <= n < |r| ==> 1 <= r[n].len && i + r[n].len <= |s|
    decreases k
  {
    if k == 0 then [] else [Cand(k, 0)] + SpaceCands(s, i, k - 1)
  }

  /** The ways `p` can match at position `i`, in the order the regex
      engine tries them. */
  function Cands(p: Piece, s: string, i: nat): (r: seq<Cand>)
    requires i <= |s|
  {
    match p
    case Directive(f) =>
      (match f
       case Year =>
         if i + 4 <= |s| && AllDigits(s[i..i + 4]) then [Cand(4, DigitsValue(s[i..i + 4]))] else []
       case ShortYear =>
         Two(CharIn(s, i, '0', '9') && CharIn(s, i + 1, '0', '9'), 10 * D(s, i) + D(s, i + 1))
       case Month =>
         Two(CharIn(s, i, '1', '1') && CharIn(s, i + 1, '0', '2'), 10 + D(s, i + 1))
         + Two(CharIn(s, i, '0', '0') && CharIn(s, i + 1, '1', '9'), D(s, i + 1))
         + One(CharIn(s, i, '1', '9'), D(s, i))
       case Day =>
         Two(CharIn(s, i, '3', '3') && CharIn(s, i + 1, '0', '1'), 30 + D(s, i + 1))
         + Two(CharIn(s, i, '1', '2') && CharIn(s, i + 1, '0', '9'), 10 * D(s, i) + D(s, i + 1))
         + Two(CharIn(s, i, '0', '0') && CharIn(s, i + 1, '1', '9'), D(s, i + 1))
         + One(CharIn(s, i, '1', '9'), D(s, i))
         + Two(CharIn(s, i, ' ', ' ') && CharIn(s, i + 1, '1', '9'), D(s, i + 1))
       case Hour =>
         Two(CharIn(s, i, '2', '2') && CharIn(s, i + 1, '0', '3'), 20 + D(s, i + 1))
         + Two(CharIn(s, i, '0', '1') && CharIn(s, i + 1, '0', '9'), 10 * D(s, i) + D(s, i + 1))
         + One(CharIn(s, i, '0', '9'), D(s, i))
       case Minute =>
         Two(CharIn(s, i, '0', '5') && CharIn(s, i + 1, '0', '9'), 10 * D(s, i) + D(s, i + 1))
         + One(CharIn(s, i, '0', '9'), D(s, i))
       case Second =>
         Two(CharIn(s, i, '6', '6') && CharIn(s, i + 1, '0', '1'), 60 + D(s, i + 1))
         + Two(CharIn(s, i, '0', '5') && CharIn(s, i + 1, '0', '9'), 10 * D(s, i) + D(s, i + 1))
         + One(CharIn(s, i, '0', '9'), D(s, i))
       case Group(_) => [])
    case Lit(c) => One(i < |s| && LowerChar(s[i]) == LowerChar(c), 0)
    case Spaces => SpaceCands(s, i, SpaceRun(s, i))
    case Digits(_, lo, hi) => Downto(s, i, DigitRun(s, i, hi), lo)
    case OneOf(cs) => One(i < |s| && s[i] in cs, 0)
    case Never => []
  }

  /** The captures after piece `p` matched as `c` (the regex's named groups). */
  type Captures = map<Field, int>

  function Capture(caps: Captures, p: Piece, c: Cand): Captures {
    match p
    case Directive(f) => caps[f := c.value]
    case Digits(g, _, _) => caps[Group(g) := c.value]
    case _ => caps
  }

  // ---------------------------------------------------------------------
  // Backtracking

  /** The first match of `pat` starting at `i`, in backtracking order: the
      captures and the position where the match ends. */
  function MatchFrom(pat: Pattern, s: string, i: nat, caps: Captures): (r: Option<(Captures, nat)>)
    requires i <= |s|
    ensures r.Some? ==> i <= r.value.1 <= |s|
    decreases |pat|, 1, 0
  {
    if pat == [] then Some((caps, i))
    else TryCands(pat, s, i, caps, Cands(pat[0], s, i))
  }

  /** The candidates of `pat[0]` tried in turn, each followed by the rest
      of the pattern. A candidate reaching past the end of the text is
      passed over; `Cands` never yields one. */
  function TryCands(pat: Pattern, s: string, i: nat, caps: Captures, cs: seq<Cand>)
    : (r: Option<(Captures, nat)>)
    requires pat != [] && i <= |s|
    ensures r.Some? ==> i <= r.value.1 <= |s|
    decreases |pat|, 0, |cs|
  {
    if cs == [] then None
    else if i + cs[0].len > |s| then TryCands(pat, s, i, caps, cs[1..])
    else
      match MatchFrom(pat[1..], s, i + cs[0].len, Capture(caps, pat[0], cs[0]))
      case Some(m) => Some(m)
      case None => TryCands(pat, s, i, caps, cs[1..])
  }

  /** The value captured for field `f`, if any. */
  function Lookup(caps: Captures, f: Field): Option<int> {
    if f in caps then Some(caps[f]) else None
  }

  function OrDefault(o: Option<int>, default: int): int {
    match o
    case Some(v) => v
    case None => default
  }

  /** The two-digit year rule of `%y`: 69..99 are 19xx, 00..68 are 20xx. */
  function PivotYear(yy: int): int {
    if yy <= 68 then 2000 + yy else 1900 + yy
  }

  /** Builds the `datetime` from the captured fields, with strptime's
      defaults (1900-01-01 00:00:00); `None` where `datetime` rejects them. */
  function Build(caps: Captures): (r: Option<DateTime>)
    ensures r.Some? ==> Valid(r.value.date)
  {
    var year :=
      match Lookup(caps, Year)
      case Some(y) => y
      case None => (match Lookup(caps, ShortYear) case Some(yy) => PivotYear(yy) case None => 1900);
    var d := Date(year, OrDefault(Lookup(caps, Month), 1), OrDefault(Lookup(caps, Day), 1));
    var t := DateTime(d, OrDefault(Lookup(caps, Hour), 0), OrDefault(Lookup(caps, Minute), 0), OrDefault(Lookup(caps, Second), 0));
    if Valid(d) && 0 <= t.hour <= 23 && 0 <= t.minute <= 59 && 0 <= t.second <= 59 then Some(t) else None
  }

  /** `datetime.strptime(s, fmt)`: `None` where Python raises ValueError. */
  function ParseDateTime(s: string, fmt: string): (r: Option<DateTime>)
    ensures r.Some? ==> Valid(r.value.date)
  {
    match MatchFrom(Compile(fmt), s, 0, map[])
    case None => None
    case Some((caps, end)) => if end == |s| then Build(caps) else None
  }

  /** The date part of `datetime.strptime(s, fmt)`. */
  function ParseDate(s: string, fmt: string): (r: Option<Date>)
    ensures r.Some? ==> Valid(r.value)
  {
    match ParseDateTime(s, fmt)
    case Some(t) => Some(t.date)
    case None => None
  }

  /** `re.search(pat, s)`: the captures of the leftmost match. */
  function Search(pat: Pattern, s: string): Option<Captures> {
    SearchFrom(pat, s, 0)
  }

  function SearchFrom(pat: Pattern, s: string, i: nat): Option<Captures>
    requires i <= |s|
    decreases |s| - i
  {
    match MatchFrom(pat, s, i, map[])
    case Some((caps, _)) => Some(caps)
    case None => if i < |s| then SearchFrom(pat, s, i + 1) else None
  }

  /** The date read by the first format in `fmts` that `strptime`
      accepts, as a chain of `try: ... except ValueError: pass` blocks. */
  function FirstFormat(s: string, fmts: seq<string>): (r: Option<Date>)
    ensures r.Some? <==> exists k :: 0 <= k < |fmts| && ParseDate(s, fmts[k]).Some?
    ensures r.Some? ==> exists k :: 0 <= k < |fmts| && ParseDate(s, fmts[k]) == r
                          && forall j :: 0 <= j < k ==> ParseDate(s, fmts[j]).None?
    ensures r.Some? ==> Valid(r.value)
  {
    if fmts == [] then None
    else if ParseDate(s, fmts[0]).Some? then
      ParseDate(s, fmts[0])
    else
      var r := FirstFormat(s, fmts[1..]);
      assert forall k :: 1 <= k < |fmts| ==> fmts[k] == fmts[1..][k - 1];
      if r.Some? then
        var k' :| 0 <= k' < |fmts| - 1 && ParseDate(s, fmts[1..][k']) == r
                  && forall j :: 0 <= j < k' ==> ParseDate(s, fmts[1..][j]).None?;
        assert ParseDate(s, fmts[k' + 1]) == r;
        r
      else r
  }

  // ---------------------------------------------------------------------
  // Writing dates

  function Pad2(n: int): (r: string)
    requires 0 <= n <= 99
    ensures |r| == 2 && IsDigit(r[0]) && IsDigit(r[1])
  {
    [DigitChar(n / 10), DigitChar(n % 10)]
  }

  function Pad4(n: int): (r: string)
    requires 0 <= n <= 9999
    ensures |r| == 4 && AllDigits(r)
  {
    [DigitChar(n / 1000), DigitChar(n / 100 % 10), DigitChar(n / 10 % 10), DigitChar(n % 10)]
  }

  /** `date.strftime('%Y-%m-%d')`. */
  function Iso(d: Date): (r: string)
    requires Valid(d)
    ensures |r| == 10 && r[4] == '-' && r[7] == '-'
  {
    Pad4(d.year) + "-" + Pad2(d.month) + "-" + Pad2(d.day)
  }
}

module StrptimeFacts {
  import opened Base
  import opened Calendar
  import opened Strptime

  /** When the first candidate `c` of `pat[0]` lets the rest of the
      pattern match, the whole pattern matches the same way. */
  lemma {:induction false} StepFirst(pat: Pattern, s: string, i: nat, caps: Captures, c: Cand, m: (Captures, nat))
    requires pat != [] && i + c.len <= |s|
    requires |Cands(pat[0], s, i)| > 0 && Cands(pat[0], s, i)[0] == c
    requires MatchFrom(pat[1..], s, i + c.len, Capture(caps, pat[0], c)) == Some(m)
    ensures MatchFrom(pat, s, i, caps) == Some(m)
  {
    var cs := Cands(pat[0], s, i);
    assert cs == [c] + cs[1..];
    TryFirst(pat, s, i, caps, c, cs[1..], m);
    MatchUnfold(pat, s, i, caps);
  }

  /** Every candidate takes at least one character and stays inside the
      text. */
  predicate Fits(cs: seq<Cand>, s: string, i: nat) {
    forall n :: 0 <= n < |cs| ==> 1 <= cs[n].len && i + cs[n].len <= |s|
  }

  lemma FitsAppend(a: seq<Cand>, b: seq<Cand>, s: string, i: nat)
    requires Fits(a, s, i) && Fits(b, s, i)
    ensures Fits(a + b, s, i)
  {
    forall n | 0 <= n < |a + b| ensures 1 <= (a + b)[n].len && i + (a + b)[n].len <= |s| {
      if n >= |a| {
        assert (a + b)[n] == b[n - |a|];
      }
    }
  }

  lemma TwoFits(s: string, i: nat)
    ensures forall ok, value :: (ok ==> i + 2 <= |s|) ==> Fits(Two(ok, value), s, i)
  {
  }

  lemma OneFits(s: string, i: nat)
    ensures forall ok, value :: (ok ==> i + 1 <= |s|) ==> Fits(One(ok, value), s, i)
  {
  }

  /** `Cands` never offers a candidate reaching past the end of the text,
      so the guard in `TryCands` never fires on its candidates. */
  lemma CandsFit(p: Piece, s: string, i: nat)
    requires i <= |s|
    ensures Fits(Cands(p, s, i), s, i)
  {
    match p
    case Directive(f) => DirectiveFits(f, s, i);
    case Lit(c) => OneFits(s, i);
    case Spaces =>
    case Digits(_, _, hi) =>
    case OneOf(cs) => OneFits(s, i);
    case Never =>
  }

  lemma DirectiveFits(f: Field, s: string, i: nat)
    requires i <= |s|
    ensures Fits(Cands(Directive(f), s, i), s, i)
  {
    match f
    case Year =>
    case ShortYear => TwoFits(s, i);
    case Month => MonthFits(s, i);
    case Day => DayFits(s, i);
    case Hour => HourFits(s, i);
    case Minute => MinuteFits(s, i);
    case Second => SecondFits(s, i);
    case Group(_) =>
  }

  lemma MonthFits(s: string, i: nat)
    requires i <= |s|
    ensures Fits(Cands(Directive(Month), s, i), s, i)
  {
    var a := Two(CharIn(s, i, '1', '1') && CharIn(s, i + 1, '0', '2'), 10 + D(s, i + 1));
    var b := Two(CharIn(s, i, '0', '0') && CharIn(s, i + 1, '1', '9'), D(s, i + 1));
    var c := One(CharIn(s, i, '1', '9'), D(s, i));
    TwoFits(s, i);
    OneFits(s, i);
    ThreeFit(a, b, c, s, i);
    assert Cands(Directive(Month), s, i) == a + b + c;
  }

  lemma HourFits(s: string, i: nat)
    requires i <= |s|
    ensures Fits(Cands(Directive(Hour), s, i), s, i)
  {
    var a := Two(CharIn(s, i, '2', '2') && CharIn(s, i + 1, '0', '3'), 20 + D(s, i + 1));
    var b := Two(CharIn(s, i, '0', '1') && CharIn(s, i + 1, '0', '9'), 10 * D(s, i) + D(s, i + 1));
    var c := One(CharIn(s, i, '0', '9'), D(s, i));
    TwoFits(s, i);
    OneFits(s, i);
    ThreeFit(a, b, c, s, i);
    assert Cands(Directive(Hour), s, i) == a + b + c;
  }

  lemma MinuteFits(s: string, i: nat)
    requires i <= |s|
    ensures Fits(Cands(Directive(Minute), s, i), s, i)
  {
    var a := Two(CharIn(s, i, '0', '5') && CharIn(s, i + 1, '0', '9'), 10 * D(s, i) + D(s, i + 1));
    var b := One(CharIn(s, i, '0', '9'), D(s, i));
    TwoFits(s, i);
    OneFits(s, i);
    FitsAppend(a, b, s, i);
    assert Cands(Directive(Minute), s, i) == a + b;
  }

  lemma SecondFits(s: string, i: nat)
    requires i <= |s|
    ensures Fits(Cands(Directive(Second), s, i), s, i)
  {
    var a := Two(CharIn(s, i, '6', '6') && CharIn(s, i + 1, '0', '1'), 60 + D(s, i + 1));
    var b := Two(CharIn(s, i, '0', '5') && CharIn(s, i + 1, '0', '9'), 10 * D(s, i) + D(s, i + 1));
    var c := One(CharIn(s, i, '0', '9'), D(s, i));
    TwoFits(s, i);
    OneFits(s, i);
    ThreeFit(a, b, c, s, i);
    assert Cands(Directive(Second), s, i) == a + b + c;
  }

  lemma ThreeFit(a: seq<Cand>, b: seq<Cand>, c: seq<Cand>, s: string, i: nat)
    requires Fits(a, s, i) && Fits(b, s, i) && Fits(c, s, i)
    ensures Fits(a + b + c, s, i)
  {
    FitsAppend(a, b, s, i);
    FitsAppend(a + b, c, s, i);
  }

  lemma DayFits(s: string, i: nat)
    requires i <= |s|
    ensures Fits(Cands(Directive(Day), s, i), s, i)
  {
    var a := Two(CharIn(s, i, '3', '3') && CharIn(s, i + 1, '0', '1'), 30 + D(s, i + 1));
    var b := Two(CharIn(s, i, '1', '2') && CharIn(s, i + 1, '0', '9'), 10 * D(s, i) + D(s, i + 1));
    var c := Two(CharIn(s, i, '0', '0') && CharIn(s, i + 1, '1', '9'), D(s, i + 1));
    var d := One(CharIn(s, i, '1', '9'), D(s, i));
    var e := Two(CharIn(s, i, ' ', ' ') && CharIn(s, i + 1, '1', '9'), D(s, i + 1));
    TwoFits(s, i);
    OneFits(s, i);
    ThreeFit(a, b, c, s, i);
    FitsAppend(a + b + c, d, s, i);
    FitsAppend(a + b + c + d, e, s, i);
    assert Cands(Directive(Day), s, i) == a + b + c + d + e;
  }

  lemma {:induction false} MatchUnfold(pat: Pattern, s: string, i: nat, caps: Captures)
    requires pat != [] && i <= |s|
    ensures MatchFrom(pat, s, i, caps) == TryCands(pat, s, i, caps, Cands(pat[0], s, i))
  {
  }

  /** The backtracking takes the first candidate whose rest matches. */
  lemma {:induction false} TryFirst(pat: Pattern, s: string, i: nat, caps: Captures, c: Cand, tail: seq<Cand>, m: (Captures, nat))
    requires pat != [] && i + c.len <= |s|
    requires MatchFrom(pat[1..], s, i + c.len, Capture(caps, pat[0], c)) == Some(m)
    ensures TryCands(pat, s, i, caps, [c] + tail) == Some(m)
  {
  }

  lemma DigitRoundTrip(x: nat)
    requires x < 10
    ensures IsDigit(DigitChar(x)) && DigitValue(DigitChar(x)) == x
  {
  }

  lemma DigitsValue4(p: string)
    requires |p| == 4 && AllDigits(p)
    ensures DigitsValue(p) == 1000 * DigitValue(p[0]) + 100 * DigitValue(p[1])
                              + 10 * DigitValue(p[2]) + DigitValue(p[3])
  {
    assert Pow10Nat(1) == 10 && Pow10Nat(2) == 100 && Pow10Nat(3) == 1000;
    assert DigitsValue(p[3..]) == DigitValue(p[3]) by { assert p[3..][1..] == []; }
    assert DigitsValue(p[2..]) == 10 * DigitValue(p[2]) + DigitValue(p[3])
      by { assert p[2..][1..] == p[3..]; }
    assert DigitsValue(p[1..]) == 100 * DigitValue(p[1]) + 10 * DigitValue(p[2]) + DigitValue(p[3])
      by { assert p[1..][1..] == p[2..]; }
  }

  lemma Decimal4(y: int)
    requires 0 <= y <= 9999
    ensures y == 1000 * (y / 1000) + 100 * (y / 100 % 10) + 10 * (y / 10 % 10) + y % 10
  {
    var a := y / 10;
    var b := a / 10;
    var c := b / 10;
    DivTen(y);
    DivTen(a);
    DivTen(b);
    DivHundred(y);
    DivThousand(y);
    assert b == y / 100 && c == y / 1000;
  }

  lemma DivTen(x: int)
    requires x >= 0
    ensures x == 10 * (x / 10) + x % 10
  {
  }

  lemma DivHundred(x: int)
    requires x >= 0
    ensures x / 10 / 10 == x / 100
  {
  }

  lemma DivThousand(x: int)
    requires x >= 0
    ensures x / 10 / 10 / 10 == x / 1000
  {
  }

  lemma Pad4Value(y: int)
    requires 0 <= y <= 9999
    ensures DigitsValue(Pad4(y)) == y
  {
    var p := Pad4(y);
    DigitRoundTrip(y / 1000);
    DigitRoundTrip(y / 100 % 10);
    DigitRoundTrip(y / 10 % 10);
    DigitRoundTrip(y % 10);
    DigitsValue4(p);
    Decimal4(y);
  }

  lemma YearCand(s: string, i: nat, y: int)
    requires 0 <= y <= 9999 && i + 4 <= |s| && s[i..i + 4] == Pad4(y)
    ensures Cands(Directive(Year), s, i) == [Cand(4, y)]
  {
    Pad4Value(y);
  }

  lemma MonthCand(s: string, i: nat, m: int)
    requires 1 <= m <= 12 && i + 2 <= |s| && s[i..i + 2] == Pad2(m)
    ensures |Cands(Directive(Month), s, i)| > 0 && Cands(Directive(Month), s, i)[0] == Cand(2, m)
  {
    assert s[i] == s[i..i + 2][0] && s[i + 1] == s[i..i + 2][1];
    DigitRoundTrip(m / 10);
    DigitRoundTrip(m % 10);
  }

  lemma DayCand(s: string, i: nat, d: int)
    requires 1 <= d <= 31 && i + 2 <= |s| && s[i..i + 2] == Pad2(d)
    ensures |Cands(Directive(Day), s, i)| > 0 && Cands(Directive(Day), s, i)[0] == Cand(2, d)
  {
    assert s[i] == s[i..i + 2][0] && s[i + 1] == s[i..i + 2][1];
    DigitRoundTrip(d / 10);
    DigitRoundTrip(d % 10);
  }

  lemma LitCand(s: string, i: nat, c: char)
    requires i < |s| && s[i] == c
    ensures Cands(Lit(c), s, i) == [Cand(1, 0)]
  {
  }

  function YmdCaptures(d: Date): Captures {
    map[Year := d.year, Month := d.month, Day := d.day]
  }

  lemma BuildYmd(d: Date)
    requires Valid(d)
    ensures Build(YmdCaptures(d)) == Some(DateTime(d, 0, 0, 0))
  {
  }

  /** `%Y<sep>%m<sep>%d` as strptime compiles it. */
  function YmdPattern(sep: char): Pattern {
    [Directive(Year), Lit(sep), Directive(Month), Lit(sep), Directive(Day)]
  }

  /** A format that starts with a directive. */
  lemma CompileDir(f: string)
    requires |f| >= 2 && f[0] == '%'
    ensures Compile(f) == [DirectiveOf(f[1])] + Compile(f[2..])
  {
  }

  /** A format that starts with an ordinary, non-space character. */
  lemma CompileLit(f: string)
    requires |f| >= 1 && f[0] != '%' && !IsSpace(f[0])
    ensures Compile(f) == [Lit(f[0])] + Compile(f[1..])
  {
  }

  /** `%a<sep>%b<sep>%c`: three directives with one separator. */
  lemma CompileThree(a: char, sep: char, b: char, c: char)
    requires sep != '%' && !IsSpace(sep)
    ensures Compile(['%', a, sep, '%', b, sep, '%', c])
            == [DirectiveOf(a), Lit(sep), DirectiveOf(b), Lit(sep), DirectiveOf(c)]
  {
    var f := ['%', a, sep, '%', b, sep, '%', c];
    var f2, f3, f5, f6 := f[2..], f[3..], f[5..], f[6..];
    assert f[6..][2..] == [];
    CompileDir(f6);
    assert Compile(f6) == [DirectiveOf(c)];
    assert f5[1..] == f6;
    CompileLit(f5);
    assert f3[2..] == f5;
    CompileDir(f3);
    assert f2[1..] == f3;
    CompileLit(f2);
    CompileDir(f);
  }

  lemma CompileYmdDash()
    ensures Compile("%Y-%m-%d") == YmdPattern('-')
  {
    assert "%Y-%m-%d" == ['%', 'Y', '-', '%', 'm', '-', '%', 'd'];
    CompileThree('Y', '-', 'm', 'd');
  }

  lemma CompileYmdSlash()
    ensures Compile("%Y/%m/%d") == YmdPattern('/')
  {
    assert "%Y/%m/%d" == ['%', 'Y', '/', '%', 'm', '/', '%', 'd'];
    CompileThree('Y', '/', 'm', 'd');
  }

  /** A canonical `YYYY<sep>MM<sep>DD` text is matched in full by
      `%Y<sep>%m<sep>%d`, capturing the date's fields. */
  lemma MatchYmdCanonical(d: Date, sep: char)
    requires Valid(d)
    ensures MatchFrom(YmdPattern(sep), Pad4(d.year) + [sep] + Pad2(d.month) + [sep] + Pad2(d.day), 0, map[])
            == Some((YmdCaptures(d), 10))
  {
    var s := Pad4(d.year) + [sep] + Pad2(d.month) + [sep] + Pad2(d.day);
    var p := YmdPattern(sep);
    var c1 := map[Year := d.year];
    var c2 := map[Year := d.year, Month := d.month];
    var m := (YmdCaptures(d), 10);
    assert s[8..10] == Pad2(d.day);
    DayCand(s, 8, d.day);
    assert p[4..][1..] == [];
    StepFirst(p[4..], s, 8, c2, Cand(2, d.day), m);
    LitCand(s, 7, sep);
    assert p[3..][1..] == p[4..];
    StepFirst(p[3..], s, 7, c2, Cand(1, 0), m);
    assert s[5..7] == Pad2(d.month);
    MonthCand(s, 5, d.month);
    assert p[2..][1..] == p[3..];
    StepFirst(p[2..], s, 5, c1, Cand(2, d.month), m);
    LitCand(s, 4, sep);
    assert p[1..][1..] == p[2..];
    StepFirst(p[1..], s, 4, c1, Cand(1, 0), m);
    assert s[0..4] == Pad4(d.year);
    YearCand(s, 0, d.year);
    StepFirst(p, s, 0, map[], Cand(4, d.year), m);
  }

  /** `datetime.strptime(date.strftime('%Y-%m-%d'), '%Y-%m-%d')` gives the
      date back. */
  /** A full match of the compiled format whose captures build `d` parses
      to `d`. */
  lemma ParseByMatch(s: string, fmt: string, caps: Captures, d: Date)
    requires MatchFrom(Compile(fmt), s, 0, map[]) == Some((caps, |s|))
    requires Build(caps) == Some(DateTime(d, 0, 0, 0))
    ensures ParseDate(s, fmt) == Some(d)
  {
  }

  lemma ParseIso(d: Date)
    requires Valid(d)
    ensures ParseDate(Iso(d), "%Y-%m-%d") == Some(d)
  {
    var s := Iso(d);
    assert s == Pad4(d.year) + ['-'] + Pad2(d.month) + ['-'] + Pad2(d.day);
    MatchYmdCanonical(d, '-');
    BuildYmd(d);
    CompileYmdDash();
  }

  // ---------------------------------------------------------------------
  // Day-first and month-first texts

  /** `DD<sep>MM<sep>YYYY`, zero-padded. */
  function DmyText(d: Date, sep: char): (r: string)
    requires Valid(d)
    ensures |r| == 10
  {
    Pad2(d.day) + [sep] + Pad2(d.month) + [sep] + Pad4(d.year)
  }

  /** `MM<sep>DD<sep>YYYY`, zero-padded. */
  function MdyText(d: Date, sep: char): (r: string)
    requires Valid(d)
    ensures |r| == 10
  {
    Pad2(d.month) + [sep] + Pad2(d.day) + [sep] + Pad4(d.year)
  }

  function DmyPattern(sep: char): Pattern {
    [Directive(Day), Lit(sep), Directive(Month), Lit(sep), Directive(Year)]
  }

  function MdyPattern(sep: char): Pattern {
    [Directive(Month), Lit(sep), Directive(Day), Lit(sep), Directive(Year)]
  }

  lemma CompileDmy()
    ensures Compile("%d/%m/%Y") == DmyPattern('/')
    ensures Compile("%d-%m-%Y") == DmyPattern('-')
  {
    assert "%d/%m/%Y" == ['%', 'd', '/', '%', 'm', '/', '%', 'Y'];
    CompileThree('d', '/', 'm', 'Y');
    assert "%d-%m-%Y" == ['%', 'd', '-', '%', 'm', '-', '%', 'Y'];
    CompileThree('d', '-', 'm', 'Y');
  }

  lemma CompileMdy()
    ensures Compile("%m/%d/%Y") == MdyPattern('/')
  {
    assert "%m/%d/%Y" == ['%', 'm', '/', '%', 'd', '/', '%', 'Y'];
    CompileThree('m', '/', 'd', 'Y');
  }

  lemma MatchDmy(d: Date, sep: char)
    requires Valid(d)
    ensures MatchFrom(DmyPattern(sep), DmyText(d, sep), 0, map[]) == Some((YmdCaptures(d), 10))
  {
    var s := DmyText(d, sep);
    var p := DmyPattern(sep);
    var c1 := map[Day := d.day];
    var c2 := map[Day := d.day, Month := d.month];
    var m := (YmdCaptures(d), 10);
    assert s[6..10] == Pad4(d.year);
    YearCand(s, 6, d.year);
    assert p[4..][1..] == [];
    assert c2[Year := d.year] == YmdCaptures(d);
    StepFirst(p[4..], s, 6, c2, Cand(4, d.year), m);
    LitCand(s, 5, sep);
    assert p[3..][1..] == p[4..];
    StepFirst(p[3..], s, 5, c2, Cand(1, 0), m);
    assert s[3..5] == Pad2(d.month);
    MonthCand(s, 3, d.month);
    assert p[2..][1..] == p[3..];
    StepFirst(p[2..], s, 3, c1, Cand(2, d.month), m);
    LitCand(s, 2, sep);
    assert p[1..][1..] == p[2..];
    StepFirst(p[1..], s, 2, c1, Cand(1, 0), m);
    assert s[0..2] == Pad2(d.day);
    DayCand(s, 0, d.day);
    StepFirst(p, s, 0, map[], Cand(2, d.day), m);
  }

  lemma MatchMdy(d: Date, sep: char)
    requires Valid(d)
    ensures MatchFrom(MdyPattern(sep), MdyText(d, sep), 0, map[]) == Some((YmdCaptures(d), 10))
  {
    var s := MdyText(d, sep);
    var p := MdyPattern(sep);
    var c1 := map[Month := d.month];
    var c2 := map[Month := d.month, Day := d.day];
    var m := (YmdCaptures(d), 10);
    assert s[6..10] == Pad4(d.year);
    YearCand(s, 6, d.year);
    assert p[4..][1..] == [];
    assert c2[Year := d.year] == YmdCaptures(d);
    StepFirst(p[4..], s, 6, c2, Cand(4, d.year), m);
    LitCand(s, 5, sep);
    assert p[3..][1..] == p[4..];
    StepFirst(p[3..], s, 5, c2, Cand(1, 0), m);
    assert s[3..5] == Pad2(d.day);
    DayCand(s, 3, d.day);
    assert p[2..][1..] == p[3..];
    StepFirst(p[2..], s, 3, c1, Cand(2, d.day), m);
    LitCand(s, 2, sep);
    assert p[1..][1..] == p[2..];
    StepFirst(p[1..], s, 2, c1, Cand(1, 0), m);
    assert s[0..2] == Pad2(d.month);
    MonthCand(s, 0, d.month);
    StepFirst(p, s, 0, map[], Cand(2, d.month), m);
  }

  /** `strptime(DD/MM/YYYY, '%d/%m/%Y')` reads the date back. */
  lemma ParseDmy(d: Date)
    requires Valid(d)
    ensures ParseDate(DmyText(d, '/'), "%d/%m/%Y") == Some(d)
  {
    MatchDmy(d, '/');
    BuildYmd(d);
    CompileDmy();
  }

  /** `strptime(MM/DD/YYYY, '%m/%d/%Y')` reads the date back. */
  lemma ParseMdy(d: Date)
    requires Valid(d)
    ensures ParseDate(MdyText(d, '/'), "%m/%d/%Y") == Some(d)
  {
    MatchMdy(d, '/');
    BuildYmd(d);
    CompileMdy();
  }

  /** A format that opens with `%Y` rejects a text whose first four
      characters are not all digits. */
  lemma YearFirstRejects(s: string, fmt: string)
    requires |fmt| >= 2 && fmt[0] == '%' && fmt[1] == 'Y'
    requires |s| < 4 || !AllDigits(s[..4])
    ensures ParseDate(s, fmt).None?
  {
    var pat := Compile(fmt);
    assert pat == [Directive(Year)] + Compile(fmt[2..]);
    if |s| >= 4 {
      assert s[0..4] == s[..4];
    }
    assert Cands(pat[0], s, 0) == [];
    assert MatchFrom(pat, s, 0, map[]).None?;
  }

  /** A day above 12 written first is not a month: `%m/%d/%Y` rejects a
      day-first text whose day is 13 or more. */
  lemma MdyRejectsDayFirst(d: Date)
    requires Valid(d) && d.day > 12
    ensures ParseDate(DmyText(d, '/'), "%m/%d/%Y").None?
  {
    var s := DmyText(d, '/');
    var p := MdyPattern('/');
    CompileMdy();
    assert s[0] == DigitChar(d.day / 10) && s[1] == DigitChar(d.day % 10);
    DigitRoundTrip(d.day / 10);
    DigitRoundTrip(d.day % 10);
    var cs := Cands(p[0], s, 0);
    assert |cs| == 1 && cs[0].len == 1;
    assert Cands(p[1..][0], s, 1) == [];
    assert MatchFrom(p[1..], s, 1, Capture(map[], p[0], cs[0])).None?;
    assert MatchFrom(p, s, 0, map[]).None?;
  }

  /** A pattern that somewhere requires a literal non-digit character. */
  predicate HasSeparator(pat: Pattern) {
    pat != [] && ((pat[0].Lit? && !IsDigit(pat[0].c)) || HasSeparator(pat[1..]))
  }

  /** A text of digits only never matches a pattern that needs a separator. */
  lemma {:induction false} DigitsDefeatSeparator(pat: Pattern, s: string, i: nat, caps: Captures)
    requires i <= |s| && forall j :: i <= j < |s| ==> IsDigit(s[j])
    requires HasSeparator(pat)
    ensures MatchFrom(pat, s, i, caps).None?
    decreases |pat|, 1, 0
  {
    var cs := Cands(pat[0], s, i);
    if pat[0].Lit? && !IsDigit(pat[0].c) {
      assert cs == [];
    } else {
      DigitsDefeatSeparatorCands(pat, s, i, caps, cs);
    }
  }

  lemma {:induction false} DigitsDefeatSeparatorCands(pat: Pattern, s: string, i: nat, caps: Captures, cs: seq<Cand>)
    requires pat != [] && i <= |s| && forall j :: i <= j < |s| ==> IsDigit(s[j])
    requires HasSeparator(pat[1..])
    ensures TryCands(pat, s, i, caps, cs).None?
    decreases |pat|, 0, |cs|
  {
    if cs != [] {
      if i + cs[0].len <= |s| {
        DigitsDefeatSeparator(pat[1..], s, i + cs[0].len, Capture(caps, pat[0], cs[0]));
      }
      DigitsDefeatSeparatorCands(pat, s, i, caps, cs[1..]);
    }
  }

  lemma DigitsRejected(s: string, fmt: string)
    requires forall j :: 0 <= j < |s| ==> IsDigit(s[j])
    requires HasSeparator(Compile(fmt))
    ensures ParseDate(s, fmt).None?
  {
    DigitsDefeatSeparator(Compile(fmt), s, 0, map[]);
  }

  // ---------------------------------------------------------------------
  // Comparing ISO texts

  /** Comparing two texts that start with equally long parts compares the
      parts first. */
  lemma {:induction false} LexLessAppend(x1: string, s1: string, x2: string, s2: string)
    requires |x1| == |x2|
    ensures LexLess(x1 + s1, x2 + s2) == (if x1 == x2 then LexLess(s1, s2) else LexLess(x1, x2))
    decreases |x1|
  {
    if x1 == [] {
      assert x1 + s1 == s1 && x2 + s2 == s2;
    } else {
      assert (x1 + s1)[0] == x1[0] && (x2 + s2)[0] == x2[0];
      assert (x1 + s1)[1..] == x1[1..] + s1 && (x2 + s2)[1..] == x2[1..] + s2;
      if x1[0] == x2[0] {
        LexLessAppend(x1[1..], s1, x2[1..], s2);
        assert x1 == x2 <==> x1[1..] == x2[1..] by {
          assert x1 == [x1[0]] + x1[1..] && x2 == [x2[0]] + x2[1..];
        }
      }
    }
  }

  lemma {:induction false} DigitsBound(s: string)
    requires forall i :: 0 <= i < |s| ==> IsDigit(s[i])
    ensures DigitsValue(s) < Pow10Nat(|s|)
  {
    if s != [] {
      var t := s[1..];
      DigitsBound(t);
      var p := Pow10Nat(|t|);
      var a := DigitValue(s[0]);
      assert DigitsValue(s) == a * p + DigitsValue(t);
      assert Pow10Nat(|s|) == 10 * p;
      assert a < 10;
      MulStep(a, 10, p);
    }
  }

  /** On digit strings of one length, text order is numeric order. */
  lemma {:induction false} LexLessDigits(x: string, y: string)
    requires |x| == |y|
    requires forall i :: 0 <= i < |x| ==> IsDigit(x[i])
    requires forall i :: 0 <= i < |y| ==> IsDigit(y[i])
    ensures LexLess(x, y) <==> DigitsValue(x) < DigitsValue(y)
  {
    if x != [] {
      var p := Pow10Nat(|x| - 1);
      var tx, ty := x[1..], y[1..];
      DigitsBound(tx);
      DigitsBound(ty);
      var a := DigitValue(x[0]);
      var b := DigitValue(y[0]);
      assert DigitsValue(x) == a * p + DigitsValue(tx);
      assert DigitsValue(y) == b * p + DigitsValue(ty);
      assert LexLess(x, y) == (if x[0] != y[0] then x[0] < y[0] else LexLess(tx, ty));
      assert a < b <==> x[0] < y[0];
      assert a == b <==> x[0] == y[0];
      if a == b {
        LexLessDigits(tx, ty);
      }
      HeadDecides(a, b, p, DigitsValue(tx), DigitsValue(ty));
    }
  }

  /** Numbers with a leading digit times `p` and a remainder below `p`
      compare by the leading digit first. */
  lemma HeadDecides(a: nat, b: nat, p: nat, rx: nat, ry: nat)
    requires rx < p && ry < p
    ensures a * p + rx < b * p + ry <==> a < b || (a == b && rx < ry)
  {
    if a < b {
      MulStep(a, b, p);
    } else if b < a {
      MulStep(b, a, p);
    }
  }

  lemma MulStep(a: nat, b: nat, p: nat)
    requires a < b
    ensures a * p + p <= b * p
  {
    var k: nat := b - a - 1;
    assert b == a + 1 + k;
    assert b * p == a * p + p + k * p;
  }

  lemma Pad2Value(n: int)
    requires 0 <= n <= 99
    ensures DigitsValue(Pad2(n)) == n
  {
    var p := Pad2(n);
    DigitRoundTrip(n / 10);
    DigitRoundTrip(n % 10);
    assert Pow10Nat(1) == 10;
    assert DigitsValue(p[1..]) == DigitValue(p[1]) by { assert p[1..][1..] == []; }
  }

  /** Comparing two zero-padded numbers as texts compares the numbers. */
  lemma PaddedCompare(x: string, y: string, a: int, b: int, s1: string, s2: string)
    requires |x| == |y| && AllDigits(x) && AllDigits(y)
    requires DigitsValue(x) == a && DigitsValue(y) == b
    ensures LexLess(x + s1, y + s2) == (if a == b then LexLess(s1, s2) else a < b)
  {
    LexLessAppend(x, s1, y, s2);
    LexLessDigits(x, y);
    if x == y {
      assert a == b;
    } else if a == b {
      LexLessDigits(y, x);
      assert !LexLess(x, y) && !LexLess(y, x);
      LexLessTotal(x, y);
    }
  }

  /** `YYYY-MM-DD` texts sort as their dates: Python's `a < b` on two
      canonical dates is chronological order. */
  lemma IsoOrder(a: Date, b: Date)
    requires Valid(a) && Valid(b)
    ensures LexLess(Iso(a), Iso(b)) <==> Before(a, b)
  {
    var da := "-" + Pad2(a.day);
    var db := "-" + Pad2(b.day);
    var ma := "-" + Pad2(a.month) + da;
    var mb := "-" + Pad2(b.month) + db;
    assert Iso(a) == Pad4(a.year) + ma;
    assert Iso(b) == Pad4(b.year) + mb;
    Pad4Value(a.year);
    Pad4Value(b.year);
    PaddedCompare(Pad4(a.year), Pad4(b.year), a.year, b.year, ma, mb);
    assert ma == "-" + (Pad2(a.month) + da) && mb == "-" + (Pad2(b.month) + db);
    LexLessAppend("-", Pad2(a.month) + da, "-", Pad2(b.month) + db);
    Pad2Value(a.month);
    Pad2Value(b.month);
    PaddedCompare(Pad2(a.month), Pad2(b.month), a.month, b.month, da, db);
    LexLessAppend("-", Pad2(a.day), "-", Pad2(b.day));
    Pad2Value(a.day);
    Pad2Value(b.day);
    PaddedCompare(Pad2(a.day), Pad2(b.day), a.day, b.day, [], []);
    assert Pad2(a.day) + [] == Pad2(a.day) && Pad2(b.day) + [] == Pad2(b.day);
  }
}

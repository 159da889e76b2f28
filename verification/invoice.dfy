/** `InvoiceService`'s invoice lines: reading prices, picking the primary
    guest among the SEF forms, the invoice-side tourist tax (a flat
    2 EUR per guest and night, with no age rule and no cap), the
    descriptions, the one Airbnb line or the three website lines, and the
    fixed 23-column row each line is written as.

    A reservation, a SEF form and an invoice row are sheet rows: column
    name to cell text. `SequenceMatcher(...).ratio()` is the parameter
    `ratio` and Python's `round(x, 2)` the parameter `rnd`. */
module Invoice {
  import opened Base
  import opened Calendar
  import opened Strptime
  import opened InvoiceDates
  import Finance

  // ---------------------------------------------------------------------
  // normalize_price

  /** The characters deleted first: the no-break space and the space. */
  const PriceSpaces: set<char> := {'\U{a0}', ' '}

  /** `normalize_price(s)` for a text: spaces, the euro sign and `EUR` go,
      then every `.` is taken for a thousands separator and deleted, and a
      `,` becomes the decimal point; 0 where `float` fails. */
  function PriceText(s: string): (r: real)
    ensures ParseFloat(PriceCleaned(s)).Some? ==> r == ParseFloat(PriceCleaned(s)).value
    ensures ParseFloat(PriceCleaned(s)).None? ==> r == 0.0
  {
    match ParseFloat(PriceCleaned(s))
    case Some(x) => x
    case None => 0.0
  }

  /** `normalize_price` before its commas become points: spaces, euro
      signs, `EUR`, surrounding whitespace and points removed. */
  function PointsDropped(s: string): string
  {
    RemoveChars(Strip(RemoveAll(RemoveChars(RemoveChars(s, PriceSpaces), {'\U{20ac}'}), "EUR")), {'.'})
  }

  /** The text `normalize_price` hands to `float`: no space, no-break
      space, euro sign or comma is left, and apart from the decimal point
      that replaces a comma, every character comes from the input. */
  function PriceCleaned(s: string): (r: string)
    ensures forall i :: 0 <= i < |r| ==> r[i] !in PriceSpaces && r[i] != '\U{20ac}' && r[i] != ','
    ensures forall c :: c in r && c != '.' ==> c in s
  {
    var t := RemoveChars(RemoveChars(s, PriceSpaces), {'\U{20ac}'});
    var u := Strip(RemoveAll(t, "EUR"));
    var r := ReplaceChar(PointsDropped(s), ',', ".");
    var t0 := RemoveChars(s, PriceSpaces);
    assert forall c :: c in t ==> c in t0 && c != '\U{20ac}';
    assert forall c :: c in t0 ==> c !in PriceSpaces && c in s;
    RemoveAllFrom(t, "EUR");
    StripFrom(RemoveAll(t, "EUR"));
    ReplaceCharFrom(RemoveChars(u, {'.'}), ',', ".");
    assert forall c :: c in r ==> c in t || c == '.';
    assert forall i :: 0 <= i < |r| ==> r[i] in r;
    r
  }

  /** Read left to right, the digits and decimal points `normalize_price`
      hands to `float` are the digits and commas of the input, each comma
      turned into a point: no digit is lost, moved or invented, and every
      point of the input (a thousands separator) is dropped. */
  lemma PriceCleanedKeepsDigits(s: string)
    ensures DigitsAnd(PriceCleaned(s), '.') == ReplaceChar(DigitsAnd(s, ','), ',', ".")
  {
    var v := PointsDropped(s);
    PointsDroppedKeepsDigits(s);
    DigitsAndReplace(v, ',', '.');
  }

  lemma PointsDroppedKeepsDigits(s: string)
    ensures '.' !in PointsDropped(s)
    ensures DigitsAnd(PointsDropped(s), ',') == DigitsAnd(s, ',')
  {
    var t0 := RemoveChars(s, PriceSpaces);
    var t := RemoveChars(t0, {'\U{20ac}'});
    var u := Strip(RemoveAll(t, "EUR"));
    DigitsAndRemoveChars(s, PriceSpaces, ',');
    DigitsAndRemoveChars(t0, {'\U{20ac}'}, ',');
    DigitsAndRemoveAll(t, "EUR", ',');
    DigitsAndStrip(RemoveAll(t, "EUR"), ',');
    DigitsAndRemoveChars(u, {'.'}, ',');
  }

  /** `normalize_price(value)`. */
  function NormalizePrice(v: Value): (r: real)
    ensures v.VNone? ==> r == 0.0
    ensures v.VNum? ==> r == v.x
    ensures v.VStr? ==> r == PriceText(v.s)
  {
    match v
    case VNone => 0.0
    case VNum(x) => x
    case VStr(s) => PriceText(s)
  }

  /** `normalize_price(row.get(k, 0.0))`. */
  function PriceField(row: Row, k: string): real {
    if k in row then NormalizePrice(VStr(row[k])) else 0.0
  }

  /** The characters a European amount's integer part may hold besides
      digits: the thousands dot and the two spaces. */
  const GroupChars: set<char> := {'.', ' ', '\U{a0}'}

  /** The currency marks a price may end with. */
  predicate CurrencyTail(t: string) {
    t == "" || t == "\U{20ac}" || t == " \U{20ac}" || t == "EUR" || t == " EUR"
  }

  /** A European amount is read as written: `"2 000,00 €"` is 2000 and
      `"873,50"` is 873.5. The integer part may carry dots and spaces
      between its digits; the value is that of its digits, the comma and
      the fraction digits. */
  lemma EuropeanPrice(a: string, f: string, tail: string)
    requires forall i :: 0 <= i < |a| ==> IsDigit(a[i]) || a[i] in GroupChars
    requires AllDigits(RemoveChars(a, GroupChars))
    requires a != [] && IsDigit(a[0])
    requires forall i :: 0 <= i < |f| ==> IsDigit(f[i])
    requires CurrencyTail(tail)
    ensures NormalizePrice(VStr(a + "," + f + tail)) == DecimalValue(RemoveChars(a, GroupChars), f)
  {
    CleanedEuropean(a, f, tail);
    ParseDecimal(RemoveChars(a, GroupChars), f);
  }

  /** The text a European amount hands to `float`. */
  lemma CleanedEuropean(a: string, f: string, tail: string)
    requires forall i :: 0 <= i < |a| ==> IsDigit(a[i]) || a[i] in GroupChars
    requires AllDigits(RemoveChars(a, GroupChars))
    requires a != [] && IsDigit(a[0])
    requires forall i :: 0 <= i < |f| ==> IsDigit(f[i])
    requires CurrencyTail(tail)
    ensures PriceCleaned(a + "," + f + tail) == RemoveChars(a, GroupChars) + "." + f
  {
    TrimmedEuropean(a, f, tail);
    DotsAndComma(a, f);
  }

  /** Before the dots go: the spaces, the currency and the margins are gone. */
  lemma TrimmedEuropean(a: string, f: string, tail: string)
    requires forall i :: 0 <= i < |a| ==> IsDigit(a[i]) || a[i] in GroupChars
    requires a != [] && IsDigit(a[0])
    requires forall i :: 0 <= i < |f| ==> IsDigit(f[i])
    requires CurrencyTail(tail)
    ensures Strip(RemoveAll(RemoveChars(RemoveChars(a + "," + f + tail, PriceSpaces), {'\U{20ac}'}), "EUR"))
            == RemoveChars(a, PriceSpaces) + "," + f
  {
    var x := RemoveChars(a, PriceSpaces) + "," + f;
    SpacesAndEuroGo(a, f, tail);
    NoLetterE(a, f);
    FirstDigitKept(a);
    assert x[0] == a[0];
    assert !IsSpace(x[|x| - 1]) by {
      if f == [] { assert x[|x| - 1] == ','; } else { assert x[|x| - 1] == f[|f| - 1]; }
    }
    EurAndStripGo(x, tail);
  }

  /** What the first two deletions leave of a currency tail. */
  function TailCleaned(tail: string): string {
    RemoveChars(RemoveChars(tail, PriceSpaces), {'\U{20ac}'})
  }

  /** The spaces and the euro sign go; the integer part keeps its dots. */
  lemma SpacesAndEuroGo(a: string, f: string, tail: string)
    requires forall i :: 0 <= i < |a| ==> IsDigit(a[i]) || a[i] in GroupChars
    requires forall i :: 0 <= i < |f| ==> IsDigit(f[i])
    ensures RemoveChars(RemoveChars(a + "," + f + tail, PriceSpaces), {'\U{20ac}'})
            == RemoveChars(a, PriceSpaces) + "," + f + TailCleaned(tail)
  {
    var a1 := RemoveChars(a, PriceSpaces);
    var cf := "," + f;
    var x := a1 + cf;
    var t1 := RemoveChars(tail, PriceSpaces);
    assert a + "," + f + tail == (a + cf) + tail;
    RemoveCharsAppend(a + cf, tail, PriceSpaces);
    RemoveCharsAppend(a, cf, PriceSpaces);
    assert forall i :: 0 <= i < |cf| ==> cf[i] !in PriceSpaces;
    RemoveCharsAbsent(cf, PriceSpaces);
    assert RemoveChars(a + "," + f + tail, PriceSpaces) == x + t1;
    assert forall i :: 0 <= i < |a| ==> a[i] != '\U{20ac}';
    assert '\U{20ac}' !in a;
    assert '\U{20ac}' !in a1 && '\U{20ac}' !in cf;
    assert forall i :: 0 <= i < |x| ==> x[i] != '\U{20ac}';
    RemoveCharsAppend(x, t1, {'\U{20ac}'});
    RemoveCharsAbsent(x, {'\U{20ac}'});
    AppendAssoc(a1, ",", f);
  }

  /** No `E` in the digits, dots and comma. */
  lemma NoLetterE(a: string, f: string)
    requires forall i :: 0 <= i < |a| ==> IsDigit(a[i]) || a[i] in GroupChars
    requires forall i :: 0 <= i < |f| ==> IsDigit(f[i])
    ensures 'E' !in RemoveChars(a, PriceSpaces) + "," + f
  {
    assert 'E' !in a by {
      assert forall i :: 0 <= i < |a| ==> a[i] != 'E';
    }
    assert 'E' !in f by {
      assert forall i :: 0 <= i < |f| ==> f[i] != 'E';
    }
    CharNotRemoved('E', a, PriceSpaces);
    CharNotInConcat('E', RemoveChars(a, PriceSpaces), ",");
    CharNotInConcat('E', RemoveChars(a, PriceSpaces) + ",", f);
  }

  lemma CharNotRemoved(c: char, s: string, cs: set<char>)
    requires c !in s
    ensures c !in RemoveChars(s, cs)
  {
  }

  lemma CharNotInConcat(c: char, x: string, y: string)
    requires c !in x && c !in y
    ensures c !in x + y
  {
  }

  /** The leading digit survives the deletion of the spaces. */
  lemma FirstDigitKept(a: string)
    requires a != [] && IsDigit(a[0])
    ensures RemoveChars(a, PriceSpaces) != [] && RemoveChars(a, PriceSpaces)[0] == a[0]
  {
    assert a == [a[0]] + a[1..];
    RemoveCharsAppend([a[0]], a[1..], PriceSpaces);
  }

  /** `EUR` leaves a currency tail and the text is then already trimmed. */
  lemma EurAndStripGo(x: string, tail: string)
    requires x != [] && !IsSpace(x[0]) && 'E' !in x
    requires !IsSpace(x[|x| - 1])
    requires CurrencyTail(tail)
    ensures Strip(RemoveAll(x + TailCleaned(tail), "EUR")) == x
  {
    TailGoes(tail);
    RemoveAllSkips(x, TailCleaned(tail), "EUR");
    assert x + [] == x;
    StripOfStripped(x);
  }

  /** The thousands dots go and the comma turns into the point. */
  lemma DotsAndComma(a: string, f: string)
    requires forall i :: 0 <= i < |f| ==> IsDigit(f[i])
    requires AllDigits(RemoveChars(a, GroupChars))
    ensures ReplaceChar(RemoveChars(RemoveChars(a, PriceSpaces) + "," + f, {'.'}), ',', ".")
            == RemoveChars(a, GroupChars) + "." + f
  {
    var m := RemoveChars(a, GroupChars);
    DotsGoBeforeComma(a, f);
    Finance.CommaToPoint(m, f);
  }

  /** Deleting the dots after the spaces deletes every group character
      and leaves the comma and the digits after it. */
  lemma DotsGoBeforeComma(a: string, f: string)
    requires forall i :: 0 <= i < |f| ==> IsDigit(f[i])
    ensures RemoveChars(RemoveChars(a, PriceSpaces) + "," + f, {'.'}) == RemoveChars(a, GroupChars) + "," + f
  {
    var a1 := RemoveChars(a, PriceSpaces);
    var cf := "," + f;
    AppendAssoc(a1, ",", f);
    RemoveCharsAppend(a1, cf, {'.'});
    CommaDigitsKeep(f);
    RemoveCharsTwice(a, PriceSpaces, {'.'});
    assert PriceSpaces + {'.'} == GroupChars;
    AppendAssoc(RemoveChars(a, GroupChars), ",", f);
  }

  /** A comma followed by digits holds no dot. */
  lemma CommaDigitsKeep(f: string)
    requires forall i :: 0 <= i < |f| ==> IsDigit(f[i])
    ensures RemoveChars("," + f, {'.'}) == "," + f
  {
    var cf := "," + f;
    forall i | 0 <= i < |cf| ensures cf[i] !in {'.'} {
      if i > 0 { assert cf[i] == f[i - 1]; }
    }
    RemoveCharsAbsent(cf, {'.'});
  }

  /** Every `.` is a thousands separator, also where it was meant as a
      decimal point: `"873.50"` is read as 87350. */
  lemma PointIsDeleted(m: string, f: string)
    requires AllDigits(m) && AllDigits(f)
    ensures NormalizePrice(VStr(m + "." + f)) == DigitsValue(m + f) as real
  {
    PointCleaned(m, f);
    assert AllDigits(m + f) by { assert forall i :: 0 <= i < |f| ==> (m + f)[|m| + i] == f[i]; }
    ParseInteger(m + f);
  }

  /** The text `float` receives for digits, a point and digits. */
  lemma PointCleaned(m: string, f: string)
    requires AllDigits(m) && AllDigits(f)
    ensures PriceCleaned(m + "." + f) == m + f
  {
    PointUntouched(m, f);
    DotsGone(m, f);
    assert forall i :: 0 <= i < |m + f| ==> (m + f)[i] != ',' by {
      assert forall i :: 0 <= i < |f| ==> (m + f)[|m| + i] == f[i];
    }
    ReplaceCharAbsent(m + f, ',', ".");
  }

  /** The point between the digits is deleted. */
  lemma DotsGone(m: string, f: string)
    requires AllDigits(m) && AllDigits(f)
    ensures RemoveChars(m + "." + f, {'.'}) == m + f
  {
    AppendAssoc(m, ".", f);
    RemoveCharsAppend(m, "." + f, {'.'});
    RemoveCharsAppend(".", f, {'.'});
    assert RemoveChars(".", {'.'}) == "";
    RemoveCharsAbsent(m, {'.'});
    RemoveCharsAbsent(f, {'.'});
    assert RemoveChars("." + f, {'.'}) == "" + f == f;
  }

  /** Spaces, currency and trimming leave digits around a point alone. */
  lemma PointUntouched(m: string, f: string)
    requires AllDigits(m) && AllDigits(f)
    ensures Strip(RemoveAll(RemoveChars(RemoveChars(m + "." + f, PriceSpaces), {'\U{20ac}'}), "EUR")) == m + "." + f
  {
    var s := m + "." + f;
    PointTextChars(m, f);
    PlainUntouched(s);
    assert s[0] == m[0] && s[|s| - 1] == f[|f| - 1];
    StripOfStripped(s);
  }

  /** Digits and points hold no space, no currency and no `EUR`. */
  lemma PlainUntouched(s: string)
    requires forall i :: 0 <= i < |s| ==> IsDigit(s[i]) || s[i] == '.'
    ensures RemoveChars(RemoveChars(s, PriceSpaces), {'\U{20ac}'}) == s
    ensures RemoveAll(s, "EUR") == s
  {
    forall i | 0 <= i < |s| ensures s[i] !in PriceSpaces && s[i] !in {'\U{20ac}'} {
      assert s[i] != ' ' && s[i] != '\U{a0}' && s[i] != '\U{20ac}';
    }
    RemoveCharsAbsent(s, PriceSpaces);
    RemoveCharsAbsent(s, {'\U{20ac}'});
    NoEurInPlain(s);
  }

  lemma NoEurInPlain(s: string)
    requires forall i :: 0 <= i < |s| ==> IsDigit(s[i]) || s[i] == '.'
    ensures RemoveAll(s, "EUR") == s
  {
    assert 'E' !in s;
    RemoveAllSkips(s, [], "EUR");
    assert s + [] == s;
  }

  /** Digits, a point and digits. */
  lemma PointTextChars(m: string, f: string)
    requires AllDigits(m) && AllDigits(f)
    ensures forall i :: 0 <= i < |m + "." + f| ==> IsDigit((m + "." + f)[i]) || (m + "." + f)[i] == '.'
  {
    var s := m + "." + f;
    forall i | 0 <= i < |s| ensures IsDigit(s[i]) || s[i] == '.' {
      if i < |m| { assert s[i] == m[i]; }
      else if i > |m| { assert s[i] == f[i - |m| - 1]; }
    }
  }

  /** The currency tails vanish. */
  lemma TailGoes(tail: string)
    requires CurrencyTail(tail)
    ensures RemoveAll(TailCleaned(tail), "EUR") == ""
  {
    TailCleanedShape(tail);
    assert "EUR"[..3] == "EUR" && "EUR"[3..] == "";
  }

  /** A currency tail leaves nothing or `EUR`. */
  lemma TailCleanedShape(tail: string)
    requires CurrencyTail(tail)
    ensures TailCleaned(tail) == "" || TailCleaned(tail) == "EUR"
  {
    var e := "\U{20ac}";
    assert RemoveChars(e, {'\U{20ac}'}) == "";
    assert RemoveChars(e, PriceSpaces) == e;
    assert RemoveChars(" ", PriceSpaces) == "";
    RemoveCharsAbsent("EUR", PriceSpaces);
    RemoveCharsAbsent("EUR", {'\U{20ac}'});
    if tail == " \U{20ac}" {
      assert tail == " " + e;
      RemoveCharsAppend(" ", e, PriceSpaces);
    } else if tail == " EUR" {
      assert tail == " " + "EUR";
      RemoveCharsAppend(" ", "EUR", PriceSpaces);
      assert RemoveChars(tail, PriceSpaces) == "" + "EUR" == "EUR";
    } else if tail == e {
      assert TailCleaned(tail) == "";
    } else if tail == "EUR" {
      assert TailCleaned(tail) == "EUR";
    } else {
      assert tail == "";
      assert RemoveChars(tail, PriceSpaces) == "";
    }
  }

  // ---------------------------------------------------------------------
  // _fuzzy_match_score

  /** Lower-casing neither makes nor unmakes whitespace. */
  lemma LowerKeepsBlank(s: string)
    ensures Blank(Lower(s)) <==> Blank(s)
  {
    assert forall i :: 0 <= i < |s| ==> (IsSpace(Lower(s)[i]) <==> IsSpace(s[i]));
  }

  /** `_fuzzy_match_score(a, b)`: nothing to compare when either name is
      empty or blank, otherwise the similarity of the lower-cased, trimmed
      names. */
  function FuzzyScore(ratio: (string, string) -> real, a: string, b: string): (r: real)
    ensures Blank(a) || Blank(b) ==> r == 0.0
    ensures !Blank(a) && !Blank(b) ==> r == ratio(Strip(Lower(a)), Strip(Lower(b)))
  {
    LowerKeepsBlank(a);
    LowerKeepsBlank(b);
    StripEmptyIffBlank(Lower(a));
    StripEmptyIffBlank(Lower(b));
    if a == "" || b == "" then 0.0
    else
      var x := Strip(Lower(a));
      var y := Strip(Lower(b));
      if x == "" || y == "" then 0.0 else ratio(x, y)
  }

  /** Names that differ only in ASCII case and surrounding whitespace score
      the same against any other name. */
  lemma ScoreIgnoresCaseAndMargins(ratio: (string, string) -> real, a: string, a': string, b: string)
    requires Strip(Lower(a)) == Strip(Lower(a'))
    ensures FuzzyScore(ratio, a, b) == FuzzyScore(ratio, a', b)
    ensures FuzzyScore(ratio, b, a) == FuzzyScore(ratio, b, a')
  {
    LowerKeepsBlank(a);
    LowerKeepsBlank(a');
    StripEmptyIffBlank(Lower(a));
    StripEmptyIffBlank(Lower(a'));
  }

  // ---------------------------------------------------------------------
  // _match_primary_guest

  /** The reservation's stay as `_parse_reservation_date` reads it. */
  function CheckIn(res: Row): Option<Date> {
    ParseReservationDate(Raw(res, "check_in"))
  }

  function CheckOut(res: Row): Option<Date> {
    ParseReservationDate(Raw(res, "check_out"))
  }

  /** A form whose both dates parse to the given stay. */
  predicate SameStay(form: Row, ci: Date, co: Date) {
    ParseSefDate(Raw(form, "Check-in date")) == Some(ci)
    && ParseSefDate(Raw(form, "Check-out date")) == Some(co)
  }

  /** The rows `keep` accepts, in their order (a list comprehension with
      a condition). */
  function Keep(rows: seq<Row>, keep: Row -> bool): (r: seq<Row>)
    ensures |r| <= |rows|
    ensures forall g :: g in r <==> g in rows && keep(g)
  {
    if rows == [] then []
    else
      assert rows == [rows[0]] + rows[1..];
      var rest := Keep(rows[1..], keep);
      if keep(rows[0]) then [rows[0]] + rest else rest
  }

  /** The first accepted row heads the kept list. */
  lemma {:induction false} KeepHead(rows: seq<Row>, keep: Row -> bool, k: nat)
    requires k < |rows| && keep(rows[k])
    requires forall j :: 0 <= j < k ==> !keep(rows[j])
    ensures Keep(rows, keep) != [] && Keep(rows, keep)[0] == rows[k]
  {
    if k > 0 {
      KeepHead(rows[1..], keep, k - 1);
    }
  }

  /** Keeping rows that are all accepted keeps them all. */
  lemma {:induction false} KeepAll(rows: seq<Row>, keep: Row -> bool)
    requires forall j :: 0 <= j < |rows| ==> keep(rows[j])
    ensures Keep(rows, keep) == rows
  {
    if rows != [] {
      KeepAll(rows[1..], keep);
      assert rows == [rows[0]] + rows[1..];
    }
  }

  /** Keeping no row leaves nothing. */
  lemma {:induction false} KeepNone(rows: seq<Row>, keep: Row -> bool)
    requires forall j :: 0 <= j < |rows| ==> !keep(rows[j])
    ensures Keep(rows, keep) == []
  {
    if rows != [] {
      KeepNone(rows[1..], keep);
    }
  }

  /** Filtering twice is filtering once. */
  lemma KeepTwice(rows: seq<Row>, keep: Row -> bool)
    ensures Keep(Keep(rows, keep), keep) == Keep(rows, keep)
  {
    var m := Keep(rows, keep);
    assert forall j :: 0 <= j < |m| ==> m[j] in m;
    KeepAll(m, keep);
  }

  /** The forms of the stay, in their order. */
  function MatchingForms(forms: seq<Row>, ci: Date, co: Date): (r: seq<Row>)
    ensures |r| <= |forms|
    ensures forall g :: g in r <==> g in forms && SameStay(g, ci, co)
  {
    Keep(forms, g => SameStay(g, ci, co))
  }

  /** The first form of the stay heads the matched list. */
  lemma MatchingHead(forms: seq<Row>, ci: Date, co: Date, k: nat)
    requires k < |forms| && SameStay(forms[k], ci, co)
    requires forall j :: 0 <= j < k ==> !SameStay(forms[j], ci, co)
    ensures MatchingForms(forms, ci, co) != [] && MatchingForms(forms, ci, co)[0] == forms[k]
  {
    KeepHead(forms, g => SameStay(g, ci, co), k);
  }

  /** Filtering forms that all belong to the stay keeps them all: the
      filter is idempotent. */
  lemma MatchingKeepsMatched(forms: seq<Row>, ci: Date, co: Date)
    requires forall j :: 0 <= j < |forms| ==> SameStay(forms[j], ci, co)
    ensures MatchingForms(forms, ci, co) == forms
  {
    KeepAll(forms, g => SameStay(g, ci, co));
  }

  /** How well a form's full name matches the reservation's guest name. */
  function NameScore(ratio: (string, string) -> real, name: string, form: Row): real {
    FuzzyScore(ratio, name, Cell(form, "Full Name"))
  }

  /** The loop that keeps the row with a strictly higher score, starting
      from `(best, score)`. */
  function BestFrom(sc: Row -> real, ms: seq<Row>, best: Option<Row>, score: real): (Option<Row>, real)
    decreases |ms|
  {
    if ms == [] then (best, score)
    else if sc(ms[0]) > score then BestFrom(sc, ms[1..], Some(ms[0]), sc(ms[0]))
    else BestFrom(sc, ms[1..], best, score)
  }

  /** `g` is the first row of `ms` with the score `top`. */
  predicate FirstWithScore(sc: Row -> real, ms: seq<Row>, g: Row, top: real) {
    exists i :: 0 <= i < |ms| && ms[i] == g && sc(ms[i]) == top
                && forall j :: 0 <= j < i ==> sc(ms[j]) < top
  }

  /** The loop ends on the highest score, never below where it started;
      when it rose, the row kept is the first one reaching it, otherwise
      the starting row is kept. */
  lemma {:induction false} BestFromFirstMax(sc: Row -> real, ms: seq<Row>, best: Option<Row>, score: real)
    ensures BestFrom(sc, ms, best, score).1 >= score
    ensures forall j :: 0 <= j < |ms| ==> sc(ms[j]) <= BestFrom(sc, ms, best, score).1
    ensures BestFrom(sc, ms, best, score).1 == score ==> BestFrom(sc, ms, best, score).0 == best
    ensures BestFrom(sc, ms, best, score).1 > score ==>
              BestFrom(sc, ms, best, score).0.Some?
              && FirstWithScore(sc, ms, BestFrom(sc, ms, best, score).0.value, BestFrom(sc, ms, best, score).1)
    decreases |ms|
  {
    if ms != [] {
      var r := BestFrom(sc, ms, best, score);
      var t := ms[1..];
      assert forall j :: 1 <= j < |ms| ==> ms[j] == t[j - 1];
      if sc(ms[0]) > score {
        BestFromFirstMax(sc, t, Some(ms[0]), sc(ms[0]));
        if r.1 == sc(ms[0]) {
          assert ms[0] == r.0.value;
        } else {
          var i :| 0 <= i < |t| && t[i] == r.0.value && sc(t[i]) == r.1
                   && forall j :: 0 <= j < i ==> sc(t[j]) < r.1;
          assert ms[i + 1] == r.0.value;
        }
      } else {
        BestFromFirstMax(sc, t, best, score);
        if r.1 > score {
          var i :| 0 <= i < |t| && t[i] == r.0.value && sc(t[i]) == r.1
                   && forall j :: 0 <= j < i ==> sc(t[j]) < r.1;
          assert ms[i + 1] == r.0.value;
        }
      }
    }
  }

  /** The score a form must beat to be chosen by name. */
  const NameThreshold: real := 0.65

  /** Some form of the stay scores above the threshold. */
  predicate SomeNameClears(sc: Row -> real, ms: seq<Row>) {
    exists j :: 0 <= j < |ms| && sc(ms[j]) > NameThreshold
  }

  /** `g` is the first row with the best score among `ms`. */
  predicate BestByName(sc: Row -> real, ms: seq<Row>, g: Row) {
    (forall j :: 0 <= j < |ms| ==> sc(ms[j]) <= sc(g))
    && FirstWithScore(sc, ms, g, sc(g))
  }

  /** The name-scoring step of `_match_primary_guest` over the forms of
      the stay: the first best-named form if its score clears 0.65, else
      the first form. */
  function PickByName(sc: Row -> real, m: seq<Row>): (r: Row)
    requires m != []
    ensures r in m
    ensures SomeNameClears(sc, m) ==> BestByName(sc, m, r)
    ensures !SomeNameClears(sc, m) ==> r == m[0]
  {
    var b := BestFrom(sc, m, None, 0.0);
    BestFromFirstMax(sc, m, None, 0.0);
    if b.1 > NameThreshold then
      var g := b.0.value;
      assert exists i :: 0 <= i < |m| && m[i] == g;
      g
    else m[0]
  }

  /** `_match_primary_guest`: no stay, no guest; no form of the stay, the
      first form at all; otherwise the first best-named form of the stay if
      its score clears 0.65, else the first form of the stay. */
  function MatchPrimaryGuest(ratio: (string, string) -> real, res: Row, forms: seq<Row>): (r: Option<Row>)
    ensures r.Some? ==> r.value in forms
    ensures CheckIn(res).None? || CheckOut(res).None? ==> r.None?
    ensures CheckIn(res).Some? && CheckOut(res).Some? ==>
              var m := MatchingForms(forms, CheckIn(res).value, CheckOut(res).value);
              var sc := g => NameScore(ratio, Cell(res, "guest_name"), g);
              (m == [] ==> r == (if forms == [] then None else Some(forms[0])))
              && (m != [] ==> r.Some? && SameStay(r.value, CheckIn(res).value, CheckOut(res).value))
              && (m != [] && SomeNameClears(sc, m) ==> r.Some? && BestByName(sc, m, r.value))
              && (m != [] && !SomeNameClears(sc, m) ==> r == Some(m[0]))
  {
    var ci := CheckIn(res);
    var co := CheckOut(res);
    if ci.None? || co.None? then None
    else
      var m := MatchingForms(forms, ci.value, co.value);
      if m == [] then (if forms == [] then None else Some(forms[0]))
      else Some(PickByName(g => NameScore(ratio, Cell(res, "guest_name"), g), m))
  }

  // ---------------------------------------------------------------------
  // _calculate_tourist_tax

  /** Check-ins before this day pay no tourist tax. */
  const TaxCutoff: Date := Date(2025, 1, 1)

  /** The rate per guest and night, in euros. */
  const TaxPerNight: real := 2.0

  /** `float(reservation.get("nights", 0))`: a missing column reads as 0,
      a cell `float` cannot read raises. */
  function NightsOf(res: Row): (r: Result<real>)
    ensures "nights" !in res ==> r == Ok(0.0)
    ensures "nights" in res ==> (r.Ok? <==> ParseFloat(res["nights"]).Some?)
    ensures "nights" in res && r.Ok? ==> r.value == ParseFloat(res["nights"]).value
  {
    if "nights" !in res then Ok(0.0)
    else
      match ParseFloat(res["nights"])
      case Some(x) => Ok(x)
      case None => Err("could not convert string to float")
  }

  /** `guests * nights * 2.00`. */
  function TaxAmount(guests: nat, nights: real): (r: real)
    ensures guests > 0 && nights > 0.0 ==> r > 0.0
    ensures guests == 0 ==> r == 0.0
  {
    Mul(guests as real, nights) * TaxPerNight
  }

  /** A product kept behind a name so that it is not expanded. */
  function Mul(a: real, b: real): (r: real)
    ensures a > 0.0 && b > 0.0 ==> r > 0.0
    ensures a == 0.0 ==> r == 0.0
  {
    a * b
  }

  /** The guests the tax counts: the forms of the stay when there are
      any, otherwise every form given (also when the check-out date does
      not parse). */
  function TaxedGuests(forms: seq<Row>, ci: Date, co: Option<Date>): (n: nat)
    ensures n <= |forms|
    ensures n == 0 <==> forms == []
    ensures co.None? || (forall g :: g in forms ==> !SameStay(g, ci, co.value)) ==> n == |forms|
    ensures co.Some? && (exists g :: g in forms && SameStay(g, ci, co.value))
            ==> n == |MatchingForms(forms, ci, co.value)|
  {
    var m := if co.None? then [] else MatchingForms(forms, ci, co.value);
    if m == [] then |forms|
    else
      assert m[0] in m;
      |m|
  }

  /** Tax applies from a valid number of nights above 0 and a check-in on
      or after the cutoff. */
  predicate TaxApplies(res: Row) {
    NightsOf(res).Ok? && NightsOf(res).value > 0.0
    && CheckIn(res).Some? && !Before(CheckIn(res).value, TaxCutoff)
  }

  /** `_calculate_tourist_tax`: `(round(n * nights * 2, 2), n)` for the `n`
      taxed guests, `(0, 0)` when the tax does not apply or nobody is
      counted; raises when the nights cell is not a number. */
  function InvoiceTouristTax(rnd: real -> real, res: Row, forms: seq<Row>): (r: Result<(real, nat)>)
    ensures r.Err? <==> NightsOf(res).Err?
    ensures r.Ok? && !TaxApplies(res) ==> r.value == (0.0, 0)
    ensures r.Ok? && TaxApplies(res) ==>
              r.value.1 == TaxedGuests(forms, CheckIn(res).value, CheckOut(res))
              && r.value.0 == (if r.value.1 == 0 then 0.0 else rnd(TaxAmount(r.value.1, NightsOf(res).value)))
    ensures r.Ok? && r.value.1 > 0 ==> TaxApplies(res)
  {
    match NightsOf(res)
    case Err(e) => Err(e)
    case Ok(nights) =>
      if nights <= 0.0 then Ok((0.0, 0))
      else
        var ci := CheckIn(res);
        if ci.None? || Before(ci.value, TaxCutoff) then Ok((0.0, 0))
        else
          var n := TaxedGuests(forms, ci.value, CheckOut(res));
          if n == 0 then Ok((0.0, 0)) else Ok((rnd(TaxAmount(n, nights)), n))
  }

  /** In the batch, the forms handed over are those of the stay already,
      so the tax counts exactly them. */
  lemma TaxCountsStayForms(rnd: real -> real, res: Row, forms: seq<Row>)
    requires TaxApplies(res) && CheckOut(res).Some?
    ensures InvoiceTouristTax(rnd, res, MatchingForms(forms, CheckIn(res).value, CheckOut(res).value)).value.1
            == |MatchingForms(forms, CheckIn(res).value, CheckOut(res).value)|
  {
    var ci := CheckIn(res).value;
    var co := CheckOut(res).value;
    KeepTwice(forms, g => SameStay(g, ci, co));
  }

  /** When no form belongs to the stay, every form given is counted. */
  lemma TaxFallsBackToAllForms(rnd: real -> real, res: Row, forms: seq<Row>)
    requires TaxApplies(res)
    requires CheckOut(res).None?
             || forall j :: 0 <= j < |forms| ==> !SameStay(forms[j], CheckIn(res).value, CheckOut(res).value)
    ensures InvoiceTouristTax(rnd, res, forms).value.1 == |forms|
  {
    if CheckOut(res).Some? {
      var ci := CheckIn(res).value;
      var co := CheckOut(res).value;
      KeepNone(forms, g => SameStay(g, ci, co));
    }
  }

  // ---------------------------------------------------------------------
  // _build_tourist_tax_description

  /** `f"Touristic Tax – {count} guests × {nights} nights"`. */
  function TaxText(count: nat, nights: int): string {
    "Touristic Tax \U{2013} " + NatToString(count) + " guests \U{d7} " + IntToString(nights) + " nights"
  }

  /** The text written when the amount and the count disagree. */
  const TaxMismatch: string := "ERROR" + " in tourist tax count \U{2013} please review manually"

  /** `tourist_tax / 2.0 / nights`. */
  function InferredGuests(tax: real, nights: int): real
    requires nights > 0
  {
    tax / TaxPerNight / nights as real
  }

  function Abs(x: real): real {
    if x < 0.0 then -x else x
  }

  /** `_build_tourist_tax_description`: empty without tax or without whole
      nights; the guests-times-nights text when the amount divided back
      gives the count (within 0.01), the error text otherwise. */
  function TouristTaxDescription(res: Row, tax: real, count: nat): (r: Result<string>)
    ensures tax <= 0.0 ==> r == Ok("")
    ensures tax > 0.0 ==> (r.Err? <==> NightsOf(res).Err?)
    ensures r.Ok? && r.value != "" ==>
              tax > 0.0 && NightsOf(res).Ok? && Trunc(NightsOf(res).value) > 0
              && (r.value == TaxMismatch
                  <==> Abs(InferredGuests(tax, Trunc(NightsOf(res).value)) - count as real) >= 0.01)
              && (r.value != TaxMismatch ==> r.value == TaxText(count, Trunc(NightsOf(res).value)))
    ensures tax > 0.0 && NightsOf(res).Ok? ==> (r.Ok? && (r.value != "" <==> Trunc(NightsOf(res).value) > 0))
  {
    if tax <= 0.0 then Ok("")
    else
      match NightsOf(res)
      case Err(e) => Err(e)
      case Ok(x) =>
        var nights := Trunc(x);
        if nights <= 0 then Ok("")
        else if Abs(InferredGuests(tax, nights) - count as real) < 0.01 then
          TaxTextNotMismatch(count, nights);
          Ok(TaxText(count, nights))
        else
          MismatchHead();
          Ok(TaxMismatch)
  }

  /** The guests-times-nights text never reads as the error text. */
  lemma TaxTextNotMismatch(count: nat, nights: int)
    ensures TaxText(count, nights) != TaxMismatch
    ensures TaxText(count, nights) != ""
  {
    assert TaxText(count, nights)[0] == 'T';
    MismatchHead();
  }

  lemma MismatchHead()
    ensures TaxMismatch[0] == 'E'
  {
    assert "ERROR"[0] == 'E';
  }

  /** An amount of exactly `count * nights * 2` divides back to `count`. */
  lemma InferredExact(count: nat, nights: nat)
    requires nights > 0
    ensures InferredGuests(TaxAmount(count, nights as real), nights) == count as real
  {
    var k := nights as real;
    assert Mul(count as real, k) == count as real * k;
    assert count as real * k * 2.0 / 2.0 == count as real * k;
    assert count as real * k / k == count as real;
  }

  /** For whole nights and an amount that rounding leaves exact, the
      description is the guests-times-nights text and never the error. */
  lemma TaxDescriptionConsistent(res: Row, count: nat, nights: nat)
    requires count > 0 && nights > 0
    requires NightsOf(res) == Ok(nights as real)
    ensures TouristTaxDescription(res, TaxAmount(count, nights as real), count) == Ok(TaxText(count, nights))
  {
    InferredExact(count, nights);
    assert Trunc(nights as real) == nights;
  }

  // ---------------------------------------------------------------------
  // _build_lodging_description

  /** The four kinds of invoice line. */
  datatype LineKind = AirbnbLine | PreInvoice | CreditNote | FinalInvoice

  /** The `invoice_type` text of a kind. */
  function KindName(k: LineKind): string {
    match k
    case AirbnbLine => "airbnb"
    case PreInvoice => "pre_invoice"
    case CreditNote => "credit_note"
    case FinalInvoice => "final_invoice"
  }

  /** `str(reservation.get("origin", "")).lower().strip()`. */
  function Origin(res: Row): string {
    Strip(Lower(Raw(res, "origin")))
  }

  predicate IsAirbnb(res: Row) {
    Origin(res) == "airbnb"
  }

  /** The separator of the descriptions, an en dash between spaces. */
  const Dash: string := " \U{2013} "

  /** The description of a website booking before any suffix. */
  function WebsiteBase(res: Row): string {
    "Website Booking " + Cell(res, "lodgify_id") + Dash + Cell(res, "check_in") + Dash + Cell(res, "check_out")
  }

  /** The description of an Airbnb booking. */
  function AirbnbText(res: Row): string {
    "Airbnb Booking " + Cell(res, "airbnb_id") + Dash + Cell(res, "check_in") + Dash + Cell(res, "check_out")
  }

  const DepositSuffix: string := " \U{2013} Deposit"
  const CreditSuffix: string := " \U{2013} Credit note for deposit"

  /** `_build_lodging_description`: an Airbnb reservation gets its one
      text whatever the kind; a website reservation gets the base text with
      a suffix naming the deposit or its credit note. */
  function LodgingDescription(res: Row, kind: LineKind): (r: string)
    ensures IsAirbnb(res) ==> r == AirbnbText(res)
    ensures !IsAirbnb(res) ==> |WebsiteBase(res)| <= |r| && r[..|WebsiteBase(res)|] == WebsiteBase(res)
    ensures !IsAirbnb(res) ==>
              r[|WebsiteBase(res)|..] == (match kind
                                          case PreInvoice => DepositSuffix
                                          case CreditNote => CreditSuffix
                                          case _ => "")
  {
    if IsAirbnb(res) then AirbnbText(res)
    else
      var base := WebsiteBase(res);
      match kind
      case PreInvoice => base + DepositSuffix
      case CreditNote => base + CreditSuffix
      case _ => base
  }

  /** The three lines of a website booking carry three different
      descriptions. */
  lemma WebsiteDescriptionsDistinct(res: Row)
    requires !IsAirbnb(res)
    ensures LodgingDescription(res, PreInvoice) != LodgingDescription(res, CreditNote)
    ensures LodgingDescription(res, PreInvoice) != LodgingDescription(res, FinalInvoice)
    ensures LodgingDescription(res, CreditNote) != LodgingDescription(res, FinalInvoice)
  {
    assert |DepositSuffix| == 10;
    assert |CreditSuffix| == 26;
  }

  // ---------------------------------------------------------------------
  // _build_invoice_line

  /** Who the line is for: the guest's name, document number and country. */
  datatype Identity = Identity(name: string, passport: string, country: string)

  /** A form's answer wins over the reservation's value when it is not
      empty. */
  function Prefer(answer: string, fallback: string): (r: string)
    ensures answer != "" ==> r == answer
    ensures answer == "" ==> r == fallback
  {
    if answer != "" then answer else fallback
  }

  /** The identity on the line: the reservation's guest name and country,
      no document number, each replaced by the primary guest's non-empty
      answer. */
  function GuestIdentity(res: Row, primary: Option<Row>): (r: Identity)
    ensures primary.None? ==> r == Identity(Cell(res, "guest_name"), "", Cell(res, "country"))
    ensures primary.Some? ==>
              r.name == Prefer(Cell(primary.value, "Full Name"), Cell(res, "guest_name"))
              && r.passport == Cell(primary.value, "Identification Card Number")
              && r.country == Prefer(Cell(primary.value, "Country of Residence"), Cell(res, "country"))
  {
    match primary
    case None => Identity(Cell(res, "guest_name"), "", Cell(res, "country"))
    case Some(g) =>
      Identity(Prefer(Cell(g, "Full Name"), Cell(res, "guest_name")),
               Cell(g, "Identification Card Number"),
               Prefer(Cell(g, "Country of Residence"), Cell(res, "country")))
  }

  /** One invoice line as `_build_invoice_line` returns it. The
      `primary_document_number` and `primary_country` copies are the
      passport number and the country and are not repeated here. */
  datatype InvoiceLine = InvoiceLine(
    reservationId: string,
    kind: LineKind,
    status: string,
    who: Identity,
    guestsCount: int,
    ttGuestsCount: nat,
    invoiceNumber: string,
    invoiceDate: string,
    checkIn: string,
    checkOut: string,
    nights: Value,
    lodgingAmount: real,
    touristTax: real,
    totalAmount: real,
    descriptionLodging: string,
    descriptionTouristTax: string,
    airbnbFee: real,
    lodgifyFee: real,
    stripeFee: real,
    dynamicFee: real)

  /** `reservation.get("nights", 0)`: the cell text, or the number 0. */
  function NightsValue(res: Row): Value {
    if "nights" in res then VStr(res["nights"]) else VNum(0.0)
  }

  /** `_build_invoice_line`: raises only where the tax description does. */
  function BuildInvoiceLine(res: Row, primary: Option<Row>, kind: LineKind, lodging: real,
                            tax: real, count: nat, guests: int): (r: Result<InvoiceLine>)
    ensures r.Err? <==> TouristTaxDescription(res, tax, count).Err?
    ensures r.Ok? ==>
              var l := r.value;
              l.reservationId == Cell(res, "reservation_id") && l.kind == kind
              && l.status == "Forecast" && l.invoiceNumber == "" && l.invoiceDate == ""
              && l.who == GuestIdentity(res, primary) && l.nights == NightsValue(res)
              && l.guestsCount == guests && l.ttGuestsCount == count
              && l.lodgingAmount == lodging && l.touristTax == tax && l.totalAmount == lodging + tax
              && l.descriptionLodging == LodgingDescription(res, kind)
              && l.descriptionTouristTax == TouristTaxDescription(res, tax, count).value
    ensures r.Ok? ==>
              var l := r.value;
              l.checkIn == Cell(res, "check_in") && l.checkOut == Cell(res, "check_out")
              && l.airbnbFee == PriceField(res, "airbnb_fee") && l.lodgifyFee == PriceField(res, "lodgify_fee")
              && l.stripeFee == PriceField(res, "stripe_fee") && l.dynamicFee == PriceField(res, "dynamic_fee")
  {
    match TouristTaxDescription(res, tax, count)
    case Err(e) => Err(e)
    case Ok(taxText) =>
      Ok(InvoiceLine(
        Cell(res, "reservation_id"), kind, "Forecast", GuestIdentity(res, primary),
        guests, count, "", "", Cell(res, "check_in"), Cell(res, "check_out"), NightsValue(res),
        lodging, tax, lodging + tax, LodgingDescription(res, kind), taxText,
        PriceField(res, "airbnb_fee"), PriceField(res, "lodgify_fee"),
        PriceField(res, "stripe_fee"), PriceField(res, "dynamic_fee")))
  }

  // ---------------------------------------------------------------------
  // generate_invoice_lines

  /** `int(float(reservation.get(k, 0)))`: a missing column reads as 0. */
  function WholeField(res: Row, k: string): (r: Result<int>)
    ensures k !in res ==> r == Ok(0)
    ensures k in res ==> (r.Ok? <==> ParseFloat(res[k]).Some?)
    ensures k in res && r.Ok? ==> r.value == Trunc(ParseFloat(res[k]).value)
  {
    if k !in res then Ok(0)
    else
      match ParseFloat(res[k])
      case Some(x) => Ok(Trunc(x))
      case None => Err("could not convert string to float")
  }

  /** The deposit share of the total. */
  const DepositRate: real := 0.30

  /** The sum of the lines' totals. */
  function SumTotals(lines: seq<InvoiceLine>): real {
    if lines == [] then 0.0 else lines[0].totalAmount + SumTotals(lines[1..])
  }

  lemma SumOfThree(a: InvoiceLine, b: InvoiceLine, c: InvoiceLine)
    ensures SumTotals([a, b, c]) == a.totalAmount + b.totalAmount + c.totalAmount
  {
    assert [a, b, c][1..] == [b, c];
    assert [b, c][1..] == [c];
    assert SumTotals([c]) == c.totalAmount + SumTotals([]);
  }

  /** A tax with nobody counted is no tax. */
  lemma ZeroCountZeroTax(rnd: real -> real, res: Row, forms: seq<Row>)
    requires InvoiceTouristTax(rnd, res, forms).Ok?
    ensures InvoiceTouristTax(rnd, res, forms).value.1 == 0 ==> InvoiceTouristTax(rnd, res, forms).value.0 == 0.0
  {
  }

  /** Once the tax is computed, its description can be written. */
  lemma TaxDescribable(rnd: real -> real, res: Row, forms: seq<Row>)
    requires InvoiceTouristTax(rnd, res, forms).Ok?
    ensures TouristTaxDescription(res, InvoiceTouristTax(rnd, res, forms).value.0, InvoiceTouristTax(rnd, res, forms).value.1).Ok?
  {
  }

  /** A line for the reservation and the given guest that starts as a
      forecast without number, whose total is its lodging plus its tax. */
  predicate Identified(l: InvoiceLine, res: Row, primary: Option<Row>) {
    && l.reservationId == Cell(res, "reservation_id")
    && l.who == GuestIdentity(res, primary)
    && l.status == "Forecast"
    && l.invoiceNumber == ""
    && l.totalAmount == l.lodgingAmount + l.touristTax
    && l.nights == NightsValue(res)
  }

  /** The single line of an Airbnb booking: the whole price and the tax. */
  function AirbnbLines(res: Row, primary: Option<Row>, total: real, tax: real, count: nat, guests: int): (r: seq<InvoiceLine>)
    requires TouristTaxDescription(res, tax, count).Ok?
    ensures |r| == 1 && r[0].kind == AirbnbLine
    ensures r[0].lodgingAmount == total && r[0].touristTax == tax && r[0].ttGuestsCount == count
    ensures SumTotals(r) == total + tax
    ensures Identified(r[0], res, primary)
  {
    var line := BuildInvoiceLine(res, primary, AirbnbLine, total, tax, count, guests).value;
    assert SumTotals([line]) == line.totalAmount + SumTotals([]);
    BuiltIdentified(res, primary, AirbnbLine, total, tax, count, guests);
    [line]
  }

  /** The three lines of a website booking: the rounded deposit, its
      credit note, and the final invoice with the whole price and the tax. */
  function WebsiteLines(res: Row, primary: Option<Row>, total: real, deposit: real,
                        tax: real, count: nat, guests: int): (r: seq<InvoiceLine>)
    requires TouristTaxDescription(res, tax, count).Ok?
    ensures |r| == 3
    ensures r[0].kind == PreInvoice && r[1].kind == CreditNote && r[2].kind == FinalInvoice
    ensures r[0].lodgingAmount == deposit && r[1].lodgingAmount == -deposit && r[2].lodgingAmount == total
    ensures r[0].touristTax == 0.0 && r[1].touristTax == 0.0 && r[2].touristTax == tax
    ensures r[0].ttGuestsCount == 0 && r[1].ttGuestsCount == 0 && r[2].ttGuestsCount == count
    ensures SumTotals(r) == total + tax
    ensures forall k :: 0 <= k < 3 ==> Identified(r[k], res, primary)
  {
    var pre := BuildInvoiceLine(res, primary, PreInvoice, deposit, 0.0, 0, guests).value;
    var credit := BuildInvoiceLine(res, primary, CreditNote, -deposit, 0.0, 0, guests).value;
    var final := BuildInvoiceLine(res, primary, FinalInvoice, total, tax, count, guests).value;
    SumOfThree(pre, credit, final);
    BuiltIdentified(res, primary, PreInvoice, deposit, 0.0, 0, guests);
    BuiltIdentified(res, primary, CreditNote, -deposit, 0.0, 0, guests);
    BuiltIdentified(res, primary, FinalInvoice, total, tax, count, guests);
    ThreeIdentified(pre, credit, final, res, primary);
    [pre, credit, final]
  }

  /** A built line names the reservation and the guest. */
  lemma BuiltIdentified(res: Row, primary: Option<Row>, kind: LineKind, lodging: real,
                        tax: real, count: nat, guests: int)
    requires BuildInvoiceLine(res, primary, kind, lodging, tax, count, guests).Ok?
    ensures Identified(BuildInvoiceLine(res, primary, kind, lodging, tax, count, guests).value, res, primary)
  {
  }

  lemma ThreeIdentified(a: InvoiceLine, b: InvoiceLine, c: InvoiceLine, res: Row, primary: Option<Row>)
    requires Identified(a, res, primary) && Identified(b, res, primary) && Identified(c, res, primary)
    ensures forall k :: 0 <= k < 3 ==> Identified([a, b, c][k], res, primary)
  {
  }

  /** The lines once the primary guest, the tax and the guest count are
      known: one Airbnb line with the whole price and the tax, or the
      three website lines around a deposit of 30 % of the total, rounded. */
  function AssembleLines(res: Row, primary: Option<Row>, rnd: real -> real,
                         tax: Result<(real, nat)>, guests: Result<int>): (r: Result<seq<InvoiceLine>>)
    requires tax.Ok? ==> TouristTaxDescription(res, tax.value.0, tax.value.1).Ok?
    ensures r.Err? <==> tax.Err? || guests.Err?
    ensures r.Ok? ==> |r.value| == (if IsAirbnb(res) then 1 else 3)
    ensures r.Ok? ==> SumTotals(r.value) == PriceField(res, "total_price") + tax.value.0
    ensures r.Ok? ==> forall k :: 0 <= k < |r.value| ==> Identified(r.value[k], res, primary)
  {
    if tax.Err? then Err(tax.msg)
    else if guests.Err? then Err(guests.msg)
    else
      var total := PriceField(res, "total_price");
      if IsAirbnb(res) then
        Ok(AirbnbLines(res, primary, total, tax.value.0, tax.value.1, guests.value))
      else
        Ok(WebsiteLines(res, primary, total, rnd(total * DepositRate), tax.value.0, tax.value.1, guests.value))
  }

  /** `generate_invoice_lines`: matches the primary guest, computes the
      tax and reads the guest count, then builds one line for an Airbnb
      booking and three for a website booking. Raises where the nights or
      the guest count cannot be read. */
  function GenerateInvoiceLines(ratio: (string, string) -> real, rnd: real -> real, res: Row, forms: seq<Row>): (r: Result<seq<InvoiceLine>>)
    ensures r.Err? <==> NightsOf(res).Err? || WholeField(res, "guests_count").Err?
  {
    var tax := InvoiceTouristTax(rnd, res, forms);
    if tax.Ok? then
      TaxDescribable(rnd, res, forms);
      AssembleLines(res, MatchPrimaryGuest(ratio, res, forms), rnd, tax, WholeField(res, "guests_count"))
    else
      AssembleLines(res, MatchPrimaryGuest(ratio, res, forms), rnd, tax, WholeField(res, "guests_count"))
  }

  /** Whatever the booking, the lines add up to the price plus the tax:
      the deposit and its credit note cancel out. */
  lemma LinesSumToPricePlusTax(ratio: (string, string) -> real, rnd: real -> real, res: Row, forms: seq<Row>)
    requires GenerateInvoiceLines(ratio, rnd, res, forms).Ok?
    ensures SumTotals(GenerateInvoiceLines(ratio, rnd, res, forms).value)
            == PriceField(res, "total_price") + InvoiceTouristTax(rnd, res, forms).value.0
  {
    var line := GenerateInvoiceLines(ratio, rnd, res, forms).value;
    if IsAirbnb(res) {
      assert SumTotals(line) == line[0].totalAmount + SumTotals([]);
    }
  }

  /** An Airbnb booking gets one line, a website booking three. */
  lemma LineCount(ratio: (string, string) -> real, rnd: real -> real, res: Row, forms: seq<Row>)
    requires GenerateInvoiceLines(ratio, rnd, res, forms).Ok?
    ensures |GenerateInvoiceLines(ratio, rnd, res, forms).value| == (if IsAirbnb(res) then 1 else 3)
  {
  }

  /** Every line is for the reservation and its primary guest, and starts
      as a forecast without number or date. */
  lemma LinesShareIdentity(ratio: (string, string) -> real, rnd: real -> real, res: Row, forms: seq<Row>, i: nat)
    requires GenerateInvoiceLines(ratio, rnd, res, forms).Ok?
    requires i < |GenerateInvoiceLines(ratio, rnd, res, forms).value|
    ensures Identified(GenerateInvoiceLines(ratio, rnd, res, forms).value[i], res, MatchPrimaryGuest(ratio, res, forms))
  {
    TaxDescribable(rnd, res, forms);
  }

  /** A website booking's lines: the deposit is 30 % of the total as
      rounded, the credit note takes it back, and only the final invoice
      carries the tax and the taxed guests. */
  lemma WebsiteLinesShape(ratio: (string, string) -> real, rnd: real -> real, res: Row, forms: seq<Row>)
    requires GenerateInvoiceLines(ratio, rnd, res, forms).Ok? && !IsAirbnb(res)
    ensures var l := GenerateInvoiceLines(ratio, rnd, res, forms).value;
            var total := PriceField(res, "total_price");
            var tax := InvoiceTouristTax(rnd, res, forms).value;
            l[0].kind == PreInvoice && l[1].kind == CreditNote && l[2].kind == FinalInvoice
            && l[0].lodgingAmount == rnd(total * DepositRate) && l[1].lodgingAmount == -l[0].lodgingAmount
            && l[2].lodgingAmount == total
            && l[0].touristTax == 0.0 && l[1].touristTax == 0.0 && l[2].touristTax == tax.0
            && l[0].ttGuestsCount == 0 && l[1].ttGuestsCount == 0 && l[2].ttGuestsCount == tax.1
  {
  }

  /** An Airbnb booking's one line carries the whole price and the tax. */
  lemma AirbnbLineShape(ratio: (string, string) -> real, rnd: real -> real, res: Row, forms: seq<Row>)
    requires GenerateInvoiceLines(ratio, rnd, res, forms).Ok? && IsAirbnb(res)
    ensures var l := GenerateInvoiceLines(ratio, rnd, res, forms).value;
            var tax := InvoiceTouristTax(rnd, res, forms).value;
            l[0].kind == AirbnbLine && l[0].lodgingAmount == PriceField(res, "total_price")
            && l[0].touristTax == tax.0 && l[0].ttGuestsCount == tax.1
  {
  }

  // ---------------------------------------------------------------------
  // write_invoice_lines

  /** The columns of the invoice sheet. */
  datatype Column =
    | ReservationIdCol | ExternalIdCol | GuestNameCol | PassportNumberCol | CountryCol
    | CheckInCol | CheckOutCol | NightsCol | GuestsCountCol | TtGuestsCountCol
    | AccommodationValueCol | TouristTaxCol | InvoiceDescriptionCol | TouristTaxDescriptionCol
    | AirbnbFeeCol | LodgifyFeeCol | StripeFeeCol | DynamicFeeCol | TotalFeesCol
    | InvoiceTotalCol | InvoiceStatusCol | InvoiceNumberCol | InvoiceDateCol

  /** A column's header in the sheet. */
  function ColumnName(c: Column): string {
    match c
    case ReservationIdCol => "reservation_id"
    case ExternalIdCol => "external_id"
    case GuestNameCol => "guest_name"
    case PassportNumberCol => "passport_number"
    case CountryCol => "country"
    case CheckInCol => "check_in"
    case CheckOutCol => "check_out"
    case NightsCol => "nights"
    case GuestsCountCol => "guests_count"
    case TtGuestsCountCol => "tt_guests_count"
    case AccommodationValueCol => "accommodation_value"
    case TouristTaxCol => "tourist_tax"
    case InvoiceDescriptionCol => "invoice_description"
    case TouristTaxDescriptionCol => "tourist_tax_description"
    case AirbnbFeeCol => "airbnb_fee"
    case LodgifyFeeCol => "lodgify_fee"
    case StripeFeeCol => "stripe_fee"
    case DynamicFeeCol => "dynamic_fee"
    case TotalFeesCol => "total_fees"
    case InvoiceTotalCol => "invoice_total"
    case InvoiceStatusCol => "invoice_status"
    case InvoiceNumberCol => "invoice_number"
    case InvoiceDateCol => "invoice_date"
  }

  /** The columns in the order they are written. */
  const InvoiceColumns: seq<Column> := [
    ReservationIdCol, ExternalIdCol, GuestNameCol, PassportNumberCol, CountryCol,
    CheckInCol, CheckOutCol, NightsCol, GuestsCountCol, TtGuestsCountCol,
    AccommodationValueCol, TouristTaxCol, InvoiceDescriptionCol, TouristTaxDescriptionCol,
    AirbnbFeeCol, LodgifyFeeCol, StripeFeeCol, DynamicFeeCol, TotalFeesCol,
    InvoiceTotalCol, InvoiceStatusCol, InvoiceNumberCol, InvoiceDateCol]

  /** Where a column sits in the row. */
  function ColumnIndex(c: Column): (i: nat)
    ensures i < |InvoiceColumns| && InvoiceColumns[i] == c
  {
    match c
    case ReservationIdCol => 0
    case ExternalIdCol => 1
    case GuestNameCol => 2
    case PassportNumberCol => 3
    case CountryCol => 4
    case CheckInCol => 5
    case CheckOutCol => 6
    case NightsCol => 7
    case GuestsCountCol => 8
    case TtGuestsCountCol => 9
    case AccommodationValueCol => 10
    case TouristTaxCol => 11
    case InvoiceDescriptionCol => 12
    case TouristTaxDescriptionCol => 13
    case AirbnbFeeCol => 14
    case LodgifyFeeCol => 15
    case StripeFeeCol => 16
    case DynamicFeeCol => 17
    case TotalFeesCol => 18
    case InvoiceTotalCol => 19
    case InvoiceStatusCol => 20
    case InvoiceNumberCol => 21
    case InvoiceDateCol => 22
  }

  /** A cell as it is sent to the sheet: a text, a whole number or an
      amount. */
  datatype Entry = Text(s: string) | Whole(n: int) | Amount(x: real)

  /** The booking's id on its platform, `airbnb_id` or `lodgify_id` by
      origin, trimmed; the reservation id when that column is missing. */
  function ExternalId(res: Row): (r: string)
    ensures IsAirbnb(res) && "airbnb_id" in res ==> r == Cell(res, "airbnb_id")
    ensures !IsAirbnb(res) && "lodgify_id" in res ==> r == Cell(res, "lodgify_id")
    ensures IsAirbnb(res) && "airbnb_id" !in res ==> r == Cell(res, "reservation_id")
    ensures !IsAirbnb(res) && "lodgify_id" !in res ==> r == Cell(res, "reservation_id")
  {
    var k := if IsAirbnb(res) then "airbnb_id" else "lodgify_id";
    if k in res then Strip(res[k]) else Cell(res, "reservation_id")
  }

  /** `int(float(v)) if v else 0`: an empty or zero value is 0, anything
      else is read as a float and truncated, and raises where `float`
      does. */
  function WholeOf(v: Value): (r: Result<int>)
    ensures !Truthy(v) ==> r == Ok(0)
    ensures Truthy(v) ==> (r.Ok? <==> FloatOf(v).Some?)
    ensures Truthy(v) && r.Ok? ==> r.value == Trunc(FloatOf(v).value)
  {
    if !Truthy(v) then Ok(0)
    else
      match FloatOf(v)
      case Some(x) => Ok(Trunc(x))
      case None => Err("could not convert string to float")
  }

  /** The cell written under column `col` for a line whose nights read
      as `n`. The amounts are floats already, which `normalize_price`
      hands back unchanged. */
  function ColumnEntry(res: Row, l: InvoiceLine, n: int, col: Column): (r: Entry)
    ensures col == AccommodationValueCol ==> r == Amount(l.lodgingAmount)
    ensures col == TouristTaxCol ==> r == Amount(l.touristTax)
    ensures col == InvoiceTotalCol ==> r == Amount(l.totalAmount)
    ensures col == AirbnbFeeCol ==> r == Amount(l.airbnbFee)
    ensures col == LodgifyFeeCol ==> r == Amount(l.lodgifyFee)
    ensures col == StripeFeeCol ==> r == Amount(l.stripeFee)
    ensures col == DynamicFeeCol ==> r == Amount(l.dynamicFee)
  {
    match col
    case ReservationIdCol => Text(Cell(res, "reservation_id"))
    case ExternalIdCol => Text(ExternalId(res))
    case GuestNameCol => Text(Strip(l.who.name))
    case PassportNumberCol => Text(Strip(l.who.passport))
    case CountryCol => Text(Strip(l.who.country))
    case CheckInCol => Text(Cell(res, "check_in"))
    case CheckOutCol => Text(Cell(res, "check_out"))
    case NightsCol => Whole(n)
    case GuestsCountCol => Whole(l.guestsCount)
    case TtGuestsCountCol => Whole(l.ttGuestsCount)
    case AccommodationValueCol => Amount(NormalizePrice(VNum(l.lodgingAmount)))
    case TouristTaxCol => Amount(NormalizePrice(VNum(l.touristTax)))
    case InvoiceDescriptionCol => Text(Strip(l.descriptionLodging))
    case TouristTaxDescriptionCol => Text(Strip(l.descriptionTouristTax))
    case AirbnbFeeCol => Amount(NormalizePrice(VNum(l.airbnbFee)))
    case LodgifyFeeCol => Amount(NormalizePrice(VNum(l.lodgifyFee)))
    case StripeFeeCol => Amount(NormalizePrice(VNum(l.stripeFee)))
    case DynamicFeeCol => Amount(NormalizePrice(VNum(l.dynamicFee)))
    case TotalFeesCol => Amount(l.airbnbFee + l.lodgifyFee + l.stripeFee + l.dynamicFee)
    case InvoiceTotalCol => Amount(NormalizePrice(VNum(l.totalAmount)))
    case InvoiceStatusCol => Text("Forecast")
    case InvoiceNumberCol => Text("")
    case InvoiceDateCol => Text("")
  }

  /** The row of one line: a cell per column, in column order; raises
      where the nights value cannot be read. */
  function RowFor(res: Row, l: InvoiceLine): (r: Result<seq<Entry>>)
    ensures r.Err? <==> WholeOf(l.nights).Err?
    ensures r.Ok? ==> |r.value| == |InvoiceColumns|
  {
    match WholeOf(l.nights)
    case Err(e) => Err(e)
    case Ok(n) =>
      Ok(seq(|InvoiceColumns|, c requires 0 <= c < |InvoiceColumns| => ColumnEntry(res, l, n, InvoiceColumns[c])))
  }

  /** The cell of the row under the column named `col`. */
  function RowAt(row: seq<Entry>, col: Column): (e: Entry)
    requires |row| == |InvoiceColumns|
  {
    row[ColumnIndex(col)]
  }

  /** Every column is written exactly once. */
  lemma ColumnsDistinct()
    ensures |InvoiceColumns| == 23
    ensures forall i, j :: 0 <= i < j < |InvoiceColumns| ==> InvoiceColumns[i] != InvoiceColumns[j]
  {
  }

  /** No two columns share a header. */
  lemma HeadersDistinct(c: Column, d: Column)
    requires c != d
    ensures ColumnName(c) != ColumnName(d)
  {
  }

  /** Under whichever position a column sits, the row holds that column's
      cell. */
  lemma RowHoldsColumns(res: Row, l: InvoiceLine, col: Column)
    requires RowFor(res, l).Ok?
    ensures RowAt(RowFor(res, l).value, col) == ColumnEntry(res, l, WholeOf(l.nights).value, col)
  {
  }

  /** The fees total is the sum of the four fee cells. */
  lemma FeesAddUp(res: Row, l: InvoiceLine, n: int)
    ensures ColumnEntry(res, l, n, TotalFeesCol).x
            == ColumnEntry(res, l, n, AirbnbFeeCol).x + ColumnEntry(res, l, n, LodgifyFeeCol).x
               + ColumnEntry(res, l, n, StripeFeeCol).x + ColumnEntry(res, l, n, DynamicFeeCol).x
  {
    assert ColumnEntry(res, l, n, TotalFeesCol) == Amount(l.airbnbFee + l.lodgifyFee + l.stripeFee + l.dynamicFee);
  }

  /** A new row is a forecast with no invoice number and no date. */
  lemma NewRowUnissued(res: Row, l: InvoiceLine, n: int)
    ensures ColumnEntry(res, l, n, InvoiceStatusCol) == Text("Forecast")
    ensures ColumnEntry(res, l, n, InvoiceNumberCol) == Text("")
    ensures ColumnEntry(res, l, n, InvoiceDateCol) == Text("")
  {
  }

  /** Every text cell of a row is written trimmed. */
  lemma TextCellsTrimmed(res: Row, l: InvoiceLine, n: int, col: Column)
    requires ColumnEntry(res, l, n, col).Text?
    ensures Trimmed(ColumnEntry(res, l, n, col).s)
  {
    var e := ColumnEntry(res, l, n, col);
    match col {
      case ReservationIdCol => StripTrimmed(Raw(res, "reservation_id"));
      case ExternalIdCol =>
        var k := if IsAirbnb(res) then "airbnb_id" else "lodgify_id";
        if k in res {
          StripTrimmed(res[k]);
        } else {
          StripTrimmed(Raw(res, "reservation_id"));
        }
      case GuestNameCol => StripTrimmed(l.who.name);
      case PassportNumberCol => StripTrimmed(l.who.passport);
      case CountryCol => StripTrimmed(l.who.country);
      case CheckInCol => StripTrimmed(Raw(res, "check_in"));
      case CheckOutCol => StripTrimmed(Raw(res, "check_out"));
      case InvoiceDescriptionCol => StripTrimmed(l.descriptionLodging);
      case TouristTaxDescriptionCol => StripTrimmed(l.descriptionTouristTax);
      case InvoiceStatusCol =>
        assert e.s == "Forecast";
        assert e.s[0] == 'F' && e.s[|e.s| - 1] == 't';
      case _ =>
        assert e.s == [];
    }
  }

  /** The nights cell reads as the nights the tax was computed from,
      truncated: a cell `float` reads is never empty. */
  lemma NightsWritten(res: Row)
    requires NightsOf(res).Ok?
    ensures WholeOf(NightsValue(res)) == Ok(Trunc(NightsOf(res).value))
  {
  }

  /** Every generated line can be written, and its nights cell counts
      the nights the tax used. */
  lemma GeneratedRowsWrite(ratio: (string, string) -> real, rnd: real -> real, res: Row, forms: seq<Row>, i: nat)
    requires GenerateInvoiceLines(ratio, rnd, res, forms).Ok?
    requires i < |GenerateInvoiceLines(ratio, rnd, res, forms).value|
    ensures WholeOf(GenerateInvoiceLines(ratio, rnd, res, forms).value[i].nights) == Ok(Trunc(NightsOf(res).value))
    ensures RowFor(res, GenerateInvoiceLines(ratio, rnd, res, forms).value[i]).Ok?
  {
    LinesShareIdentity(ratio, rnd, res, forms, i);
    NightsWritten(res);
  }

  /** On a line whose total is its lodging plus its tax, the invoice total
      cell is the accommodation cell plus the tax cell. */
  lemma InvoiceTotalAddsUp(res: Row, l: InvoiceLine, n: int)
    requires l.totalAmount == l.lodgingAmount + l.touristTax
    ensures ColumnEntry(res, l, n, InvoiceTotalCol).x
            == ColumnEntry(res, l, n, AccommodationValueCol).x + ColumnEntry(res, l, n, TouristTaxCol).x
  {
  }

  /** The rows of all the lines, in order; raises at the first line whose
      nights cannot be read. */
  function Rows(res: Row, lines: seq<InvoiceLine>): (r: Result<seq<seq<Entry>>>)
    ensures r.Ok? <==> forall i :: 0 <= i < |lines| ==> RowFor(res, lines[i]).Ok?
    ensures r.Ok? ==> |r.value| == |lines|
    ensures r.Ok? ==> forall i :: 0 <= i < |lines| ==> r.value[i] == RowFor(res, lines[i]).value
  {
    if lines == [] then Ok([])
    else
      match RowFor(res, lines[0])
      case Err(e) => Err(e)
      case Ok(row) =>
        match Rows(res, lines[1..])
        case Err(e) => Err(e)
        case Ok(rest) => Ok([row] + rest)
  }

  /** `write_invoice_lines`: in debug mode nothing is written and the
      answer is yes; otherwise there must be lines, each must make a row,
      and the one batch append of all the rows (`appended`, its outcome)
      must succeed. */
  function WriteInvoiceLines(res: Row, lines: seq<InvoiceLine>, debug: bool, appended: bool): (ok: bool)
    ensures debug ==> ok
    ensures !debug && lines == [] ==> !ok
    ensures !debug && lines != [] ==> (ok <==> Rows(res, lines).Ok? && appended)
  {
    if debug then true
    else if lines == [] then false
    else
      match Rows(res, lines)
      case Err(_) => false
      case Ok(_) => appended
  }

  /** Writing the generated lines of a reservation succeeds exactly when
      the sheet accepts the append: they always make rows. */
  lemma GeneratedWriteFollowsAppend(ratio: (string, string) -> real, rnd: real -> real, res: Row, forms: seq<Row>, appended: bool)
    requires GenerateInvoiceLines(ratio, rnd, res, forms).Ok?
    ensures WriteInvoiceLines(res, GenerateInvoiceLines(ratio, rnd, res, forms).value, false, appended) == appended
  {
    var lines := GenerateInvoiceLines(ratio, rnd, res, forms).value;
    LineCount(ratio, rnd, res, forms);
    forall i | 0 <= i < |lines|
      ensures RowFor(res, lines[i]).Ok?
    {
      GeneratedRowsWrite(ratio, rnd, res, forms, i);
    }
  }
}

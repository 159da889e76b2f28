/** `ReservationMapper`: turns one row of the booking-platform CSV export
    into the reservation schema of the sheet. Phones get a leading quote
    and an international prefix, the guest's country is read off the phone
    prefix, dates become `YYYY-MM-DD`, and the channel fees are estimated
    from the source, the phone's country and the booking date. */
module ReservationMapper {
  import opened Base
  import opened Calendar
  import opened Strptime
  import opened StrptimeFacts
  import opened PhoneTables

  // ---------------------------------------------------------------------
  // Dates

  /** The formats `_normalize_date` tries, in order; day-first comes
      before month-first. */
  const DateFormats: seq<string> := [
    "%Y-%m-%d", "%Y/%m/%d", "%d/%m/%Y", "%d-%m-%Y", "%m/%d/%Y",
    "%Y-%m-%d %H:%M", "%Y-%m-%d %H:%M:%S", "%Y-%m-%dT%H:%M:%S",
    "%Y-%m-%dT%H:%M:%SZ", "%d/%m/%Y %H:%M"
  ]

  /** The texts pandas and the sheet use for a missing value. */
  const MissingTexts: set<string> := {"nan", "none", "null"}

  /** `_normalize_date`: the date as `YYYY-MM-DD`, or "" for an empty, a
      missing-value or an unreadable text. */
  function NormalizeDate(raw: string): (r: string)
    ensures r == "" || (exists d :: Valid(d) && r == Iso(d))
    ensures MissingDate(raw) ==> r == ""
    ensures !MissingDate(raw) ==> (r != "" <==> FirstFormat(Strip(raw), DateFormats).Some?)
    ensures !MissingDate(raw) && r != "" ==> r == Iso(FirstFormat(Strip(raw), DateFormats).value)
  {
    if MissingDate(raw) then "" else ReadDateText(Strip(raw))
  }

  /** An empty or whitespace cell, or one holding a missing-value marker
      (`raw == ""` is covered by `Blank`). */
  predicate MissingDate(raw: string) {
    Blank(raw) || Lower(Strip(raw)) in MissingTexts
  }

  /** The first of `DateFormats` that reads the text, as `YYYY-MM-DD`. */
  function ReadDateText(t: string): (r: string)
    ensures r != "" <==> FirstFormat(t, DateFormats).Some?
    ensures r != "" ==> r == Iso(FirstFormat(t, DateFormats).value)
  {
    match FirstFormat(t, DateFormats)
    case Some(d) => Iso(d)
    case None => ""
  }

  /** `_calculate_anticipation_days`: the whole days from booking to
      check-in, at least 0, as text; "" when a date is missing or is not
      `YYYY-MM-DD`. */
  function AnticipationDays(checkIn: string, reservationDate: string): (r: string)
    ensures checkIn == "" || reservationDate == "" ==> r == ""
    ensures r != "" <==> checkIn != "" && reservationDate != ""
                         && ParseDate(checkIn, "%Y-%m-%d").Some?
                         && ParseDate(reservationDate, "%Y-%m-%d").Some?
    ensures r == "" || AllDigits(r)
  {
    if checkIn == "" || reservationDate == "" then ""
    else
      match (ParseDate(checkIn, "%Y-%m-%d"), ParseDate(reservationDate, "%Y-%m-%d"))
      case (Some(a), Some(b)) => NatToString(if Ordinal(a) >= Ordinal(b) then Ordinal(a) - Ordinal(b) else 0)
      case _ => ""
  }

  // ---------------------------------------------------------------------
  // Phones

  /** The separators of `re.split(r"[;, ]+", ...)`. */
  const PhoneSeparators: set<char> := {';', ',', ' '}

  /** The characters `_normalize_phone` deletes from the first number. */
  const PhoneNoise: set<char> := {' ', '-', ',', '(', ')', '.'}

  /** `re.split(r"[;, ]+", s)[0]`: the text before the first separator. */
  function FirstToken(s: string): (r: string)
    ensures |r| <= |s| && r == s[..|r|]
    ensures forall i :: 0 <= i < |r| ==> r[i] !in PhoneSeparators
    ensures |r| == |s| || s[|r|] in PhoneSeparators
  {
    if s == [] || s[0] in PhoneSeparators then [] else [s[0]] + FirstToken(s[1..])
  }

  /** `_normalize_phone`: the first number of the cell, cleaned, with an
      international `+` and a leading quote that keeps the sheet from
      reading it as a number. */
  function NormalizePhone(raw: string): (r: string)
    ensures r == "" <==> CleanPhone(raw) == ""
    ensures r != "" ==> r[0] == '\'' && PlusForm(CleanPhone(raw), r[1..])
    ensures forall i :: 1 <= i < |r| ==> r[i] !in PhoneNoise
  {
    if raw == "" then "" else QuotePhone(CleanPhone(raw))
  }

  /** The first number of the cell without spaces, dashes, commas,
      brackets and dots: every other character of it, in order. */
  function CleanPhone(raw: string): (r: string)
    ensures forall i :: 0 <= i < |r| ==> r[i] !in PhoneNoise
    ensures forall c :: multiset(r)[c] == if c in PhoneNoise then 0 else multiset(FirstToken(Strip(raw)))[c]
    ensures Subsequence(r, FirstToken(Strip(raw)))
  {
    var r := RemoveChars(FirstToken(Strip(raw)), PhoneNoise);
    RemoveCharsKeepsRest(FirstToken(Strip(raw)), PhoneNoise, r);
    r
  }

  /** The number after its international prefix, `+` or `00`. */
  function NationalPart(phone: string): (r: string)
    ensures |r| <= |phone| && r == phone[|phone| - |r|..]
    ensures StartsWith(phone, "+") ==> phone == "+" + r
    ensures !StartsWith(phone, "+") && StartsWith(phone, "00") ==> phone == "00" + r
    ensures !StartsWith(phone, "+") && !StartsWith(phone, "00") ==> r == phone
  {
    if StartsWith(phone, "+") then
      assert phone == phone[..1] + phone[1..];
      phone[1..]
    else if StartsWith(phone, "00") then
      assert phone == phone[..2] + phone[2..];
      phone[2..]
    else phone
  }

  /** The prefix rules settle in one step: quoting the number that comes
      out of them again gives the same text. */
  lemma QuoteAgain(phone: string)
    requires phone != [] && forall i :: 0 <= i < |phone| ==> phone[i] !in PhoneNoise
    ensures QuotePhone(QuotePhone(phone)[1..]) == QuotePhone(phone)
  {
    var q := QuotePhone(phone);
    var n := q[1..];
    if StartsWith(phone, "+") || StartsWith(phone, "00") || AllDigits(phone) {
      assert n[..1] == "+";
      assert q == "'" + n;
    } else {
      assert n == phone;
    }
  }

  /** Taking off a `+` or a `00` prefix gives back the national part. */
  lemma NationalPartInverts(d: string)
    ensures NationalPart("+" + d) == d
    ensures NationalPart("00" + d) == d
  {
    assert ("+" + d)[..1] == "+" && ("+" + d)[1..] == d;
    assert ("00" + d)[0] == '0' && ("00" + d)[..2] == "00" && ("00" + d)[2..] == d;
  }

  /** `n` is how the cleaned number `phone` is written: with a `+` before
      its national part when it already has an international prefix or is
      all digits, and as it is otherwise. */
  predicate PlusForm(phone: string, n: string) {
    if StartsWith(phone, "+") || StartsWith(phone, "00") || AllDigits(phone)
    then n == "+" + NationalPart(phone)
    else n == phone
  }

  /** The prefix rules of `_normalize_phone` on a cleaned number. */
  function QuotePhone(phone: string): (r: string)
    requires forall i :: 0 <= i < |phone| ==> phone[i] !in PhoneNoise
    ensures r == "" <==> phone == ""
    ensures r != "" ==> r[0] == '\'' && PlusForm(phone, r[1..])
    ensures forall i :: 1 <= i < |r| ==> r[i] !in PhoneNoise
  {
    if phone == "" then ""
    else if StartsWith(phone, "+") then "'" + phone
    else if StartsWith(phone, "00") then "'+" + phone[2..]
    else if AllDigits(phone) then "'+" + phone
    else "'" + phone
  }

  /** The entry of the longest non-empty key of `table`, at most `n`
      characters long, that `phone` starts with. */
  function LongestMatch(table: map<string, string>, phone: string, n: nat): (r: Option<string>)
    ensures r.Some? ==> exists p :: p in table && StartsWith(phone, p) && 1 <= |p| <= n
                                    && table[p] == r.value
                                    && forall q :: q in table && StartsWith(phone, q) && 1 <= |q| <= n ==> |q| <= |p|
    ensures r.None? <==> forall p :: p in table && 1 <= |p| <= n ==> !StartsWith(phone, p)
  {
    if n == 0 then None
    else if n <= |phone| && phone[..n] in table then
      var p := phone[..n];
      assert StartsWith(phone, p);
      Some(table[p])
    else
      LongestMatch(table, phone, n - 1)
  }

  /** `_country_from_phone`: the country of the longest matching prefix of
      a normalised phone (quote dropped; a bare run of at least 8 digits is
      read as international), or "" when no prefix matches. */
  function CountryFromPhone(normalized: string): (r: string)
    ensures var intl := International(DropQuotes(normalized));
            && (r == "" <==> forall p :: p in PhoneCountryMap ==> !StartsWith(intl, p))
            && (r != "" ==> exists p :: p in PhoneCountryMap && StartsWith(intl, p) && PhoneCountryMap[p] == r
                                        && forall q :: q in PhoneCountryMap && StartsWith(intl, q) ==> |q| <= |p|)
  {
    CountryOfNumber(DropQuotes(normalized))
  }

  /** The same for a number whose leading quotes are already gone. */
  function CountryOfNumber(phone: string): (r: string)
    ensures var intl := International(phone);
            && (r == "" <==> forall p :: p in PhoneCountryMap ==> !StartsWith(intl, p))
            && (r != "" ==> exists p :: p in PhoneCountryMap && StartsWith(intl, p) && PhoneCountryMap[p] == r
                                        && forall q :: q in PhoneCountryMap && StartsWith(intl, q) ==> |q| <= |p|)
  {
    var intl := International(phone);
    var r := match LongestMatch(PhoneCountryMap, intl, LongestPrefixLength) case Some(c) => c case None => "";
    PrefixesAreShort();
    CountriesNamed();
    LongestMatchOfShortKeys(PhoneCountryMap, intl, LongestPrefixLength, "", r);
    r
  }

  /** The number in `+` form: as it is when it has the `+`, with a `+`
      added to a bare run of at least 8 digits, "" otherwise. */
  function International(phone: string): (r: string)
    ensures r == "" || r[0] == '+'
    ensures StartsWith(phone, "+") ==> r == phone
    ensures !StartsWith(phone, "+") && AllDigits(phone) && |phone| >= 8 ==> r == "+" + phone
    ensures r == "" <==> !StartsWith(phone, "+") && !(AllDigits(phone) && |phone| >= 8)
  {
    if StartsWith(phone, "+") then phone
    else if AllDigits(phone) && |phone| >= 8 then "+" + phone
    else ""
  }

  /** `s.lstrip("'")`: the text after its leading quotes. */
  function DropQuotes(s: string): (r: string)
    ensures |r| <= |s| && r == s[|s| - |r|..]
    ensures forall i :: 0 <= i < |s| - |r| ==> s[i] == '\''
    ensures r == "" || r[0] != '\''
  {
    if s != "" && s[0] == '\'' then DropQuotes(s[1..]) else s
  }

  // ---------------------------------------------------------------------
  // Stripe fee

  const EuCountries: set<string> := {
    "Portugal", "France", "Germany", "Italy", "Spain", "Netherlands",
    "Belgium", "Ireland", "Austria", "Denmark", "Sweden", "Finland",
    "Luxembourg", "Greece", "Poland", "Czech Republic", "Hungary",
    "Romania", "Bulgaria", "Croatia", "Slovenia", "Slovakia",
    "Lithuania", "Latvia", "Estonia"
  }

  const UkRate: real := 0.025
  const EuRate: real := 0.015
  const OtherRate: real := 0.0325
  const FixedCharge: real := 0.50

  /** The characters `re.sub(r'[\s\-\(\)\.]', '', ...)` deletes. */
  predicate StripeNoise(c: char) {
    IsSpace(c) || c == '-' || c == '(' || c == ')' || c == '.'
  }

  function RemoveStripeNoise(s: string): (r: string)
    ensures forall i :: 0 <= i < |r| ==> !StripeNoise(r[i])
  {
    if s == [] then []
    else (if StripeNoise(s[0]) then [] else [s[0]]) + RemoveStripeNoise(s[1..])
  }

  /** What `RemoveStripeNoise` leaves is every other character of `s`,
      each as often as in `s` and in the order of `s`. */
  lemma RemoveStripeNoiseKeepsRest(s: string, r: string)
    requires r == RemoveStripeNoise(s)
    ensures forall c :: multiset(r)[c] == if StripeNoise(c) then 0 else multiset(s)[c]
    ensures Subsequence(r, s)
  {
    StripeNoiseCounts(s);
    StripeNoiseInOrder(s);
  }

  lemma {:induction false} StripeNoiseCounts(s: string)
    ensures forall c :: multiset(RemoveStripeNoise(s))[c] == if StripeNoise(c) then 0 else multiset(s)[c]
  {
    if s != [] {
      StripeNoiseCounts(s[1..]);
      var h := if StripeNoise(s[0]) then [] else [s[0]];
      assert s == [s[0]] + s[1..];
      assert multiset(RemoveStripeNoise(s)) == multiset(h) + multiset(RemoveStripeNoise(s[1..]));
    }
  }

  lemma {:induction false} StripeNoiseInOrder(s: string)
    ensures Subsequence(RemoveStripeNoise(s), s)
  {
    if s != [] {
      var r := RemoveStripeNoise(s);
      var rest := RemoveStripeNoise(s[1..]);
      StripeNoiseInOrder(s[1..]);
      if StripeNoise(s[0]) {
        assert r == rest;
      } else {
        assert r == [s[0]] + rest;
        assert r[0] == s[0] && r[1..] == rest;
      }
    }
  }

  /** The phone digits after the international prefix (`+` or `00`),
      without whitespace, hyphens, brackets or dots. */
  function StripeDigits(phone: string): (r: string)
    ensures forall i :: 0 <= i < |r| ==> !StripeNoise(r[i])
    ensures var c := RemoveStripeNoise(Strip(phone));
            && (StartsWith(c, "+") ==> c == "+" + r)
            && (!StartsWith(c, "+") && StartsWith(c, "00") ==> c == "00" + r)
            && (!StartsWith(c, "+") && !StartsWith(c, "00") ==> r == c)
  {
    NationalPart(RemoveStripeNoise(Strip(phone)))
  }

  /** The country of the longest known calling code that starts the
      digits (the source tries three, then two, then one digit), or
      "Other". */
  function StripeCountry(digits: string): (r: string)
    ensures r == "Other" <==> forall p :: p in StripeCountryCodes ==> !StartsWith(digits, p)
    ensures r != "Other" ==> exists p :: p in StripeCountryCodes && StartsWith(digits, p) && StripeCountryCodes[p] == r
                                && forall q :: q in StripeCountryCodes && StartsWith(digits, q) ==> |q| <= |p|
  {
    var r := match LongestMatch(StripeCountryCodes, digits, 3) case Some(c) => c case None => "Other";
    StripeCodesShort();
    StripeCodesNamed();
    LongestMatchOfShortKeys(StripeCountryCodes, digits, 3, "Other", r);
    r
  }

  function StripeRate(country: string): (rate: real)
    ensures rate == UkRate <==> country == "United Kingdom"
    ensures rate == EuRate <==> country in EuCountries
    ensures rate == OtherRate <==> country != "United Kingdom" && country !in EuCountries
  {
    if country == "United Kingdom" then UkRate
    else if country in EuCountries then EuRate
    else OtherRate
  }

  /** `total * rate + 0.50` before rounding. */
  function StripeCharge(total: real, rate: real): real {
    total * rate + FixedCharge
  }

  /** `_calculate_stripe_fee`: website bookings pay the card rate of the
      phone's country plus a fixed 0.50, rounded to cents by `rnd`. */
  function StripeFee(source: string, total: real, phone: string, rnd: real -> real): (r: real)
    ensures source != "Website" ==> r == 0.0
    ensures source == "Website" ==>
              r == rnd(StripeCharge(total, StripeRate(StripeCountry(StripeDigits(phone)))))
  {
    if source != "Website" then 0.0
    else rnd(StripeCharge(total, StripeRate(StripeCountry(StripeDigits(phone)))))
  }

  // ---------------------------------------------------------------------
  // Numbers

  /** `int(float(x)) if x and x.strip() else ""`, "" also where `float`
      raises. */
  function IntCell(raw: string): (r: Value)
    ensures r.VStr? ==> r.s == ""
    ensures r.VNum? <==> !Blank(raw) && ParseFloat(raw).Some?
    ensures r.VNum? ==> r.x == Trunc(ParseFloat(raw).value) as real
  {
    if raw == "" || Blank(raw) then VStr("")
    else
      match ParseFloat(raw)
      case Some(x) => VNum(Trunc(x) as real)
      case None => VStr("")
  }

  /** `float(x) if x and x.strip() else 0.0`, 0.0 also where `float`
      raises. */
  function RealCell(raw: string): (r: real)
    ensures Blank(raw) || ParseFloat(raw).None? ==> r == 0.0
    ensures !Blank(raw) && ParseFloat(raw).Some? ==> r == ParseFloat(raw).value
  {
    if raw == "" || Blank(raw) then 0.0
    else
      match ParseFloat(raw)
      case Some(x) => x
      case None => 0.0
  }

  // ---------------------------------------------------------------------
  // The row

  const LodgifySources: set<string> := {"Website", "Direct", "Lodgify"}
  const LodgifyRate: real := 0.01
  const DynamicRate: real := 0.008
  /** Bookings made on or after this day pay the dynamic-pricing fee. */
  const DynamicFeeStart: string := "2024-11-12"

  /** The reservation the sheet stores for one booked CSV row. */
  datatype Reservation = Reservation(
    reservationId: string, origin: string, lodgifyId: string, airbnbId: string,
    guestName: string, guestEmail: string, guestPhone: string, guestsCount: Value,
    checkIn: string, checkOut: string, nights: Value, currency: string,
    totalPrice: real, country: string, reservationDate: string, status: string,
    vatAmount: real, anticipationDays: string, welcomeSent: string,
    airbnbFee: real, lodgifyFee: real, stripeFee: real, dynamicFee: real,
    totalFees: real, payoutExpected: real)

  /** The four channel fees, their sum and the expected payout. */
  datatype FeeSet = FeeSet(airbnb: real, lodgify: real, stripe: real, dynamic: real,
                           total: real, payout: real)

  /** The fee block of `map_csv_row`. */
  function MappedFees(source: string, total: real, phone: string, reservationDate: string,
                      rnd: real -> real): (f: FeeSet)
    ensures f.airbnb == 0.0
    ensures f.lodgify == (if source == "Website" then total * LodgifyRate else 0.0)
    ensures f.stripe == StripeFee(source, total, phone, rnd)
    ensures f.dynamic == (if LexLess(reservationDate, DynamicFeeStart) then 0.0 else total * DynamicRate)
    ensures f.total == f.airbnb + f.lodgify + f.stripe + f.dynamic
    ensures f.payout == total - f.airbnb - f.lodgify - f.stripe
  {
    var lodgify := if source == "Website" then total * LodgifyRate else 0.0;
    var stripe := StripeFee(source, total, phone, rnd);
    var dynamic := if LexLess(reservationDate, DynamicFeeStart) then 0.0 else total * DynamicRate;
    FeeSet(0.0, lodgify, stripe, dynamic, 0.0 + lodgify + stripe + dynamic, total - 0.0 - lodgify - stripe)
  }

  /** `map_csv_row`: `None` unless the row's status is exactly "Booked". */
  function MapCsvRow(row: Row, rnd: real -> real): (r: Option<Reservation>)
    ensures r.Some? <==> Cell(row, "Status") == "Booked"
    ensures r.Some? ==> r.value.origin == Lower(Cell(row, "Source"))
    ensures r.Some? ==> r.value.lodgifyId == (if Cell(row, "Source") in LodgifySources then Cell(row, "Id") else "")
    ensures r.Some? ==> r.value.airbnbId == (if Cell(row, "Source") == "Airbnb" then Cell(row, "SourceText") else "")
    ensures r.Some? ==> r.value.reservationId == Cell(row, "Id") && r.value.status == "Booked"
    ensures r.Some? ==> r.value.guestPhone == NormalizePhone(if Cell(row, "Phone") != "" then Cell(row, "Phone")
                                                           else Cell(row, "guest_phone"))
    ensures r.Some? ==> r.value.country == CountryFromPhone(r.value.guestPhone)
    ensures r.Some? ==> r.value.totalPrice == RealCell(Raw(row, "TotalAmount"))
    ensures r.Some? ==> r.value.anticipationDays == AnticipationDays(r.value.checkIn, r.value.reservationDate)
    ensures r.Some? ==> r.value.welcomeSent == ""
    ensures r.Some? ==> r.value.guestName == Cell(row, "Name") && r.value.guestEmail == Cell(row, "Email")
                        && r.value.currency == Cell(row, "Currency")
    ensures r.Some? ==> r.value.checkIn == NormalizeDate(Raw(row, "DateArrival"))
                        && r.value.checkOut == NormalizeDate(Raw(row, "DateDeparture"))
                        && r.value.reservationDate == NormalizeDate(Raw(row, "DateCreated"))
    ensures r.Some? ==> r.value.guestsCount == IntCell(Raw(row, "People")) && r.value.nights == IntCell(Raw(row, "Nights"))
    ensures r.Some? ==> r.value.vatAmount == RealCell(Raw(row, "IncludedVatTotal"))
    ensures r.Some? ==> var m := r.value;
              MappedFees(Cell(row, "Source"), m.totalPrice, Cell(row, "Phone"), m.reservationDate, rnd)
              == FeeSet(m.airbnbFee, m.lodgifyFee, m.stripeFee, m.dynamicFee, m.totalFees, m.payoutExpected)
  {
    var status := Cell(row, "Status");
    if status != "Booked" then None
    else
      var source := Cell(row, "Source");
      var phone := Cell(row, "Phone");
      var guestPhone := NormalizePhone(if phone != "" then phone else Cell(row, "guest_phone"));
      var checkIn := NormalizeDate(Raw(row, "DateArrival"));
      var reservationDate := NormalizeDate(Raw(row, "DateCreated"));
      var total := RealCell(Raw(row, "TotalAmount"));
      var fees := MappedFees(source, total, phone, reservationDate, rnd);
      Some(Reservation(
        Cell(row, "Id"), Lower(source),
        if source in LodgifySources then Cell(row, "Id") else "",
        if source == "Airbnb" then Cell(row, "SourceText") else "",
        Cell(row, "Name"), Cell(row, "Email"), guestPhone, IntCell(Raw(row, "People")),
        checkIn, NormalizeDate(Raw(row, "DateDeparture")), IntCell(Raw(row, "Nights")),
        Cell(row, "Currency"), total, CountryFromPhone(guestPhone), reservationDate, status,
        RealCell(Raw(row, "IncludedVatTotal")), AnticipationDays(checkIn, reservationDate), "",
        fees.airbnb, fees.lodgify, fees.stripe, fees.dynamic, fees.total, fees.payout))
  }

  // ---------------------------------------------------------------------
  // Properties: dates

  /** A trimmed date text that is not a missing-value marker is read by
      the format list. */
  lemma ReadsTrimmed(s: string)
    requires |s| == 10 && IsDigit(s[0]) && IsDigit(s[9])
    ensures NormalizeDate(s) == ReadDateText(s)
  {
    StrippedDate(s);
    NotMissing(s);
  }

  lemma StrippedDate(s: string)
    requires |s| == 10 && IsDigit(s[0]) && IsDigit(s[9])
    ensures Strip(s) == s
  {
    StripOfStripped(s);
  }

  lemma NotMissing(s: string)
    requires |s| == 10 && IsDigit(s[0]) && Strip(s) == s
    ensures !MissingDate(s)
  {
    DigitNotBlank(s);
    LongNotMissing(s);
  }

  lemma DigitNotBlank(s: string)
    requires |s| > 0 && IsDigit(s[0])
    ensures !Blank(s)
  {
    assert !IsSpace(s[0]);
  }

  /** Text longer than every missing-value marker is not one of them. */
  lemma LongNotMissing(s: string)
    requires |s| > 4 && !Blank(s) && Strip(s) == s
    ensures !MissingDate(s)
  {
    var l := Lower(s);
    assert |l| == |s|;
  }

  /** A canonical date is kept as it is. */
  lemma NormalizeDateFixed(d: Date)
    requires Valid(d)
    ensures NormalizeDate(Iso(d)) == Iso(d)
  {
    var s := Iso(d);
    assert s[0] == Pad4(d.year)[0] && s[9] == Pad2(d.day)[1];
    ReadsTrimmed(s);
    ParseIso(d);
    assert DateFormats[0] == "%Y-%m-%d";
    assert FirstFormat(s, DateFormats) == Some(d);
  }

  /** Whatever `_normalize_date` returns, normalising it again returns it
      unchanged. */
  lemma NormalizeDateIdempotent(raw: string)
    ensures NormalizeDate(NormalizeDate(raw)) == NormalizeDate(raw)
  {
    var r := NormalizeDate(raw);
    if r != "" {
      var d :| Valid(d) && r == Iso(d);
      NormalizeDateFixed(d);
    }
  }

  lemma SkipDateFormat(s: string, fmts: seq<string>)
    requires fmts != [] && ParseDate(s, fmts[0]).None?
    ensures FirstFormat(s, fmts) == FirstFormat(s, fmts[1..])
  {
  }

  /** A slashed date is read day-first: `03/04/2025` is the 3rd of April. */
  lemma DayFirst(d: Date)
    requires Valid(d)
    ensures NormalizeDate(DmyText(d, '/')) == Iso(d)
  {
    var s := DmyText(d, '/');
    assert s[0] == Pad2(d.day)[0] && s[9] == Pad4(d.year)[3];
    ReadsTrimmed(s);
    DmyFormatMatches(d);
  }

  /** The first format that reads a slashed day-first text is `%d/%m/%Y`. */
  lemma DmyFormatMatches(d: Date)
    requires Valid(d)
    ensures FirstFormat(DmyText(d, '/'), DateFormats) == Some(d)
  {
    var s := DmyText(d, '/');
    assert !AllDigits(s[..4]) by { assert s[..4][2] == '/'; }
    YearFirstRejects(s, "%Y-%m-%d");
    YearFirstRejects(s, "%Y/%m/%d");
    ParseDmy(d);
    var f1 := DateFormats[1..];
    var f2 := f1[1..];
    assert DateFormats[0] == "%Y-%m-%d" && f1[0] == "%Y/%m/%d" && f2[0] == "%d/%m/%Y";
    SkipDateFormat(s, DateFormats);
    SkipDateFormat(s, f1);
  }

  /** The anticipation of two canonical dates is the day count between
      them, never negative. */
  lemma AnticipationOfDates(checkIn: Date, booked: Date)
    requires Valid(checkIn) && Valid(booked)
    ensures AnticipationDays(Iso(checkIn), Iso(booked))
            == NatToString(if Ordinal(checkIn) >= Ordinal(booked) then Ordinal(checkIn) - Ordinal(booked) else 0)
  {
    var a := Iso(checkIn);
    var b := Iso(booked);
    ParseIso(checkIn);
    ParseIso(booked);
    assert |a| == 10 && |b| == 10;
    AnticipationOfParsed(a, b, checkIn, booked);
  }

  lemma AnticipationOfParsed(a: string, b: string, x: Date, y: Date)
    requires a != "" && b != ""
    requires ParseDate(a, "%Y-%m-%d") == Some(x) && ParseDate(b, "%Y-%m-%d") == Some(y)
    ensures AnticipationDays(a, b) == NatToString(if Ordinal(x) >= Ordinal(y) then Ordinal(x) - Ordinal(y) else 0)
  {
  }

  /** Check-in before the booking date reads as 0 days. */
  lemma AnticipationNeverNegative(checkIn: Date, booked: Date)
    requires Valid(checkIn) && Valid(booked) && Before(checkIn, booked)
    ensures AnticipationDays(Iso(checkIn), Iso(booked)) == "0"
  {
    AnticipationOfDates(checkIn, booked);
    OrdinalOrder(checkIn, booked);
  }

  // ---------------------------------------------------------------------
  // Properties: phones

  /** A cell holding one plain number is cleaned to itself. */
  lemma CleanPlain(s: string)
    requires s != [] && forall i :: 0 <= i < |s| ==> s[i] !in PhoneSeparators && s[i] !in PhoneNoise && !IsSpace(s[i])
    ensures CleanPhone(s) == s
  {
    assert Strip(s) == s by { StripOfStripped(s); }
    FirstTokenWhole(s);
    NoNoiseKept(s);
  }

  /** A leading `00` is the international prefix. */
  lemma DoubleZeroIsPlus(d: string)
    requires AllDigits(d)
    ensures NormalizePhone("00" + d) == "'+" + d
  {
    var s := "00" + d;
    CleanPlain(s);
    assert s[0] == '0';
    assert !StartsWith(s, "+");
    assert s[..2] == "00";
    assert s[2..] == d;
    assert QuotePhone(s) == "'+" + d;
  }

  /** A bare run of digits gets the international `+`. */
  lemma DigitsGetPlus(d: string)
    requires AllDigits(d) && !StartsWith(d, "00")
    ensures NormalizePhone(d) == "'+" + d
  {
    CleanPlain(d);
    assert !StartsWith(d, "+") by { assert d[..1][0] == d[0]; }
    assert QuotePhone(d) == "'+" + d;
  }

  /** A number already in `+` form only gains the quote. */
  lemma PlusKept(d: string)
    requires AllDigits(d)
    ensures NormalizePhone("+" + d) == "'+" + d
  {
    PlusNumberClean(d);
    PlusQuoted(d);
    AppendAssoc("'", "+", d);
    QuotePlusText();
  }

  lemma PlusQuoted(d: string)
    requires AllDigits(d)
    ensures QuotePhone("+" + d) == "'" + ("+" + d)
  {
    var s := "+" + d;
    assert forall i :: 0 <= i < |s| ==> s[i] !in PhoneNoise by {
      forall i | 0 <= i < |s| ensures s[i] !in PhoneNoise {
        if i > 0 { assert s[i] == d[i - 1]; }
      }
    }
    assert s[..1] == "+";
  }

  lemma QuotePlusText()
    ensures "'" + "+" == "'+"
  {
    assert ("'" + "+")[1] == '+';
  }

  /** A `+` and digits come out of cleaning unchanged. */
  lemma PlusNumberClean(d: string)
    requires AllDigits(d)
    ensures CleanPhone("+" + d) == "+" + d
  {
    var s := "+" + d;
    forall i | 0 <= i < |s| ensures s[i] !in PhoneSeparators && s[i] !in PhoneNoise && !IsSpace(s[i]) {
      if i > 0 { assert s[i] == d[i - 1]; }
    }
    CleanPlain(s);
  }

  /** Only the first of several numbers in the cell is kept. */
  lemma FirstNumberOnly(a: string, rest: string)
    requires a != [] && forall i :: 0 <= i < |a| ==> a[i] !in PhoneSeparators && !IsSpace(a[i])
    ensures NormalizePhone(a + ";" + rest) == NormalizePhone(a)
  {
    FirstTokenOfList(a, rest);
    assert Strip(a) == a by { StripOfStripped(a); }
    FirstTokenWhole(a);
  }

  lemma FirstTokenOfList(a: string, rest: string)
    requires a != [] && forall i :: 0 <= i < |a| ==> a[i] !in PhoneSeparators && !IsSpace(a[i])
    ensures FirstToken(Strip(a + ";" + rest)) == a
  {
    var s := a + ";" + rest;
    var t := Strip(s);
    StripKeepsHead(s, a + ";");
    FirstTokenStops(t, a);
  }

  /** Stripping a text that starts with a word ending in a non-space
      keeps that word at its head. */
  lemma StripKeepsHead(s: string, h: string)
    requires h != [] && |h| <= |s| && s[..|h|] == h && !IsSpace(h[0]) && !IsSpace(h[|h| - 1])
    ensures |Strip(s)| >= |h| && Strip(s)[..|h|] == h
  {
    assert LStrip(s) == s by { assert s[0] == h[0]; }
    RStripKeepsPrefix(s, |h|);
  }

  lemma {:induction false} FirstTokenWhole(s: string)
    requires forall i :: 0 <= i < |s| ==> s[i] !in PhoneSeparators
    ensures FirstToken(s) == s
  {
    if s != [] {
      FirstTokenWhole(s[1..]);
    }
  }

  lemma {:induction false} FirstTokenStops(t: string, a: string)
    requires |a| < |t| && t[..|a|] == a && t[|a|] in PhoneSeparators
    requires forall i :: 0 <= i < |a| ==> a[i] !in PhoneSeparators
    ensures FirstToken(t) == a
  {
    if a != [] {
      assert t[1..][..|a| - 1] == a[1..];
      FirstTokenStops(t[1..], a[1..]);
    }
  }

  lemma {:induction false} RStripKeepsPrefix(s: string, k: nat)
    requires k <= |s| && (k == 0 || !IsSpace(s[k - 1]))
    ensures |RStrip(s)| >= k && RStrip(s)[..k] == s[..k]
    decreases |s|
  {
    if s != [] && IsSpace(s[|s| - 1]) {
      assert |s| - 1 >= k;
      RStripKeepsPrefix(s[..|s| - 1], k);
    }
  }

  lemma {:induction false} NoNoiseKept(s: string)
    requires forall i :: 0 <= i < |s| ==> s[i] !in PhoneNoise
    ensures RemoveChars(s, PhoneNoise) == s
  {
    if s != [] {
      NoNoiseKept(s[1..]);
    }
  }

  /** The quote the sheet needs does not change the country. */
  lemma QuoteIgnored(p: string)
    ensures CountryFromPhone("'" + p) == CountryFromPhone(p)
  {
    assert DropQuotes("'" + p) == DropQuotes(p) by { assert ("'" + p)[1..] == p; }
  }

  /** When every key of `table` is a non-empty text of at most `n`
      characters and no entry is `none`, the longest match is among all
      keys. */
  lemma LongestMatchOfShortKeys(table: map<string, string>, phone: string, n: nat, none: string, r: string)
    requires forall p :: p in table ==> 1 <= |p| <= n
    requires none !in table.Values
    requires r == match LongestMatch(table, phone, n) case Some(c) => c case None => none
    ensures (r == none <==> forall p :: p in table ==> !StartsWith(phone, p))
            && (r != none ==> exists p :: p in table && StartsWith(phone, p) && table[p] == r
                                        && forall q :: q in table && StartsWith(phone, q) ==> |q| <= |p|)
  {
    var m := LongestMatch(table, phone, n);
    if m.Some? {
      var p :| p in table && StartsWith(phone, p) && 1 <= |p| <= n && table[p] == m.value
               && forall q :: q in table && StartsWith(phone, q) && 1 <= |q| <= n ==> |q| <= |p|;
      assert table[p] in table.Values;
    }
  }

  /** The example of the source's documentation, a UK mobile: `+447` is
      not in the table, so the `+44` entry decides. */
  lemma UkMobile(rest: string)
    ensures CountryFromPhone("'+447" + rest) == "United Kingdom"
  {
    var phone := "+447" + rest;
    var quoted := "'+447" + rest;
    assert DropQuotes(quoted) == phone by {
      assert quoted[0] == '\'' && quoted[1..] == phone;
      assert phone[0] == '+';
    }
    UkNumber(rest);
  }

  lemma UkNumber(rest: string)
    ensures CountryOfNumber("+447" + rest) == "United Kingdom"
  {
    var phone := "+447" + rest;
    assert International(phone) == phone by { assert phone[..1] == "+"; }
    UkLongestMatch(rest);
  }

  lemma UkLongestMatch(rest: string)
    ensures LongestMatch(PhoneCountryMap, "+447" + rest, LongestPrefixLength) == Some("United Kingdom")
  {
    var phone := "+447" + rest;
    assert phone[..4] == "+447" && phone[..3] == "+44";
    UkPrefixes();
    MatchMissed(PhoneCountryMap, phone, 4);
    MatchFound(PhoneCountryMap, phone, 3);
  }

  lemma MatchMissed(table: map<string, string>, phone: string, n: nat)
    requires 1 <= n <= |phone| && phone[..n] !in table
    ensures LongestMatch(table, phone, n) == LongestMatch(table, phone, n - 1)
  {
  }

  lemma MatchFound(table: map<string, string>, phone: string, n: nat)
    requires 1 <= n <= |phone| && phone[..n] in table
    ensures LongestMatch(table, phone, n) == Some(table[phone[..n]])
  {
  }

  // ---------------------------------------------------------------------
  // Properties: fees

  /** Only website bookings pay the card fee, and only they pay the
      channel-manager fee. */
  lemma OnlyWebsitePaysCardFees(row: Row, rnd: real -> real)
    requires Cell(row, "Status") == "Booked" && Cell(row, "Source") != "Website"
    ensures var m := MapCsvRow(row, rnd).value;
            m.stripeFee == 0.0 && m.lodgifyFee == 0.0 && m.airbnbFee == 0.0
            && m.payoutExpected == m.totalPrice && m.totalFees == m.dynamicFee
  {
  }

  /** A booking with no readable date never pays the dynamic-pricing fee. */
  lemma UndatedPaysNoDynamicFee(row: Row, rnd: real -> real)
    requires Cell(row, "Status") == "Booked" && NormalizeDate(Raw(row, "DateCreated")) == ""
    ensures MapCsvRow(row, rnd).value.dynamicFee == 0.0
  {
  }

  /** The dynamic-pricing fee is owed exactly for bookings made on or
      after 2024-11-12: the text comparison of the source is date order. */
  lemma DynamicFeeFromDate(d: Date, total: real, source: string, phone: string, rnd: real -> real)
    requires Valid(d)
    ensures MappedFees(source, total, phone, Iso(d), rnd).dynamic
            == (if Before(d, Date(2024, 11, 12)) then 0.0 else total * DynamicRate)
  {
    var start := Date(2024, 11, 12);
    assert Iso(start) == DynamicFeeStart by {
      assert Pad4(2024) == "2024" && Pad2(11) == "11" && Pad2(12) == "12";
    }
    IsoOrder(d, start);
  }

  /** A trimmed phone without separators reaches the code lookup as it is. */
  lemma PlainStripePhone(phone: string)
    requires phone != [] && !IsSpace(phone[0]) && !IsSpace(phone[|phone| - 1])
    requires forall i :: 0 <= i < |phone| ==> !StripeNoise(phone[i])
    ensures RemoveStripeNoise(Strip(phone)) == phone
  {
    StripOfStripped(phone);
    NoStripeNoiseKept(phone);
  }

  lemma {:induction false} NoStripeNoiseKept(s: string)
    requires forall i :: 0 <= i < |s| ==> !StripeNoise(s[i])
    ensures RemoveStripeNoise(s) == s
  {
    if s != [] {
      NoStripeNoiseKept(s[1..]);
    }
  }

  /** The card fee of a UK mobile is 2.5% plus 0.50. */
  lemma UkCardFee(rest: string, total: real, rnd: real -> real)
    requires AllDigits(rest)
    ensures StripeFee("Website", total, "+447" + rest, rnd) == rnd(StripeCharge(total, UkRate))
  {
    var digits := "447" + rest;
    assert "+447" + rest == "+" + digits;
    PlusDigits(digits);
    UkStripeCountry(rest);
  }

  /** The card fee of a Portuguese number dialled with `00` is the EU
      1.5% plus 0.50. */
  lemma PortugueseCardFee(rest: string, total: real, rnd: real -> real)
    requires AllDigits(rest)
    ensures StripeFee("Website", total, "00351" + rest, rnd) == rnd(StripeCharge(total, EuRate))
  {
    var digits := "351" + rest;
    assert "00351" + rest == "00" + digits;
    ZeroZeroDigits(digits);
    PortugueseStripeCountry(rest);
  }

  /** A North American number is not in the card table and pays the
      3.25% rate plus 0.50. */
  lemma UsCardFee(rest: string, total: real, rnd: real -> real)
    requires AllDigits(rest)
    ensures StripeFee("Website", total, "+1" + rest, rnd) == rnd(StripeCharge(total, OtherRate))
  {
    var digits := "1" + rest;
    assert "+1" + rest == "+" + digits;
    PlusDigits(digits);
    UsStripeCountry(rest);
    OtherPaysOtherRate();
  }

  /** "Other" is not an EU country, so it pays the rest-of-world rate. */
  lemma OtherPaysOtherRate()
    ensures StripeRate("Other") == OtherRate
  {
    assert "Other" !in EuCountries;
  }

  lemma UkStripeCountry(rest: string)
    ensures StripeCountry("447" + rest) == "United Kingdom"
  {
    var digits := "447" + rest;
    assert digits[..3] == "447" && digits[..2] == "44";
    UkStripeCodes();
    MatchMissed(StripeCountryCodes, digits, 3);
    MatchFound(StripeCountryCodes, digits, 2);
  }

  lemma PortugueseStripeCountry(rest: string)
    ensures StripeCountry("351" + rest) == "Portugal"
  {
    var digits := "351" + rest;
    assert digits[..3] == "351";
    PortugueseStripeCode();
    MatchFound(StripeCountryCodes, digits, 3);
  }

  lemma UsStripeCountry(rest: string)
    ensures StripeCountry("1" + rest) == "Other"
  {
    var digits := "1" + rest;
    assert forall n :: 1 <= n <= |digits| ==> digits[..n][0] == '1';
    NorthAmericaNotListed();
  }

  /** A `+` followed by digits reaches the code lookup as those digits. */
  lemma PlusDigits(d: string)
    requires d != [] && AllDigits(d)
    ensures StripeDigits("+" + d) == d
  {
    var phone := "+" + d;
    assert phone[0] == '+' && phone[|phone| - 1] == d[|d| - 1];
    PlainStripePhone(phone);
    assert StartsWith(phone, "+") by { assert phone[..1] == "+"; }
    assert phone[1..] == d;
  }

  /** `00` followed by digits reaches the code lookup as those digits. */
  lemma ZeroZeroDigits(d: string)
    requires d != [] && AllDigits(d)
    ensures StripeDigits("00" + d) == d
  {
    var phone := "00" + d;
    assert phone[0] == '0' && phone[|phone| - 1] == d[|d| - 1];
    PlainStripePhone(phone);
    assert !StartsWith(phone, "+") && StartsWith(phone, "00") by { assert phone[..2] == "00"; }
    assert phone[2..] == d;
  }
}

/** The calling-code tables of the mapper, kept apart from the string
    library so that facts about them are cheap to check. */
module PhoneTables {
  /** `PHONE_COUNTRY_MAP`: international prefix to country, written as
      three tables by the number of digits in the prefix. */
  const PhoneCountryMap: map<string, string> := OneDigitCodes + TwoDigitCodes + ThreeDigitCodes

  const OneDigitCodes: map<string, string> := map[
    "+1" := "United States"
  ]

  const TwoDigitCodes: map<string, string> := map[
    "+12" := "United States", "+30" := "Greece", "+31" := "Netherlands",
    "+32" := "Belgium", "+33" := "France", "+34" := "Spain", "+36" := "Hungary",
    "+39" := "Italy", "+40" := "Romania", "+41" := "Switzerland",
    "+43" := "Austria", "+44" := "United Kingdom", "+45" := "Denmark",
    "+46" := "Sweden", "+47" := "Norway", "+48" := "Poland", "+49" := "Germany",
    "+52" := "Mexico", "+55" := "Brazil", "+60" := "Malaysia",
    "+61" := "Australia", "+62" := "Indonesia", "+63" := "Philippines",
    "+64" := "New Zealand", "+65" := "Singapore", "+66" := "Thailand",
    "+81" := "Japan", "+82" := "South Korea", "+84" := "Vietnam", "+86" := "China",
    "+90" := "Turkey", "+91" := "India", "+92" := "Pakistan", "+94" := "Sri Lanka",
    "+95" := "Myanmar", "+98" := "Iran"
  ]

  const ThreeDigitCodes: map<string, string> := map[
    "+351" := "Portugal", "+352" := "Luxembourg", "+353" := "Ireland",
    "+354" := "Iceland", "+355" := "Albania", "+356" := "Malta",
    "+357" := "Cyprus", "+358" := "Finland", "+359" := "Bulgaria",
    "+420" := "Czech Republic", "+421" := "Slovakia", "+852" := "Hong Kong",
    "+853" := "Macau", "+886" := "Taiwan"
  ]

  /** The calling codes `_calculate_stripe_fee` knows, by number of
      digits. */
  const StripeCountryCodes: map<string, string> := StripeTwoDigitCodes + StripeThreeDigitCodes

  const StripeTwoDigitCodes: map<string, string> := map[
    "44" := "United Kingdom", "33" := "France", "49" := "Germany",
    "39" := "Italy", "34" := "Spain", "31" := "Netherlands", "32" := "Belgium",
    "43" := "Austria", "45" := "Denmark", "46" := "Sweden", "47" := "Norway",
    "41" := "Switzerland", "30" := "Greece", "48" := "Poland",
    "36" := "Hungary", "40" := "Romania"
  ]

  const StripeThreeDigitCodes: map<string, string> := map[
    "351" := "Portugal", "353" := "Ireland", "358" := "Finland",
    "352" := "Luxembourg", "420" := "Czech Republic", "359" := "Bulgaria",
    "385" := "Croatia", "386" := "Slovenia", "421" := "Slovakia",
    "370" := "Lithuania", "371" := "Latvia", "372" := "Estonia"
  ]

  /** The longest prefix in the table is four characters long. */
  const LongestPrefixLength: nat := 4

  lemma TwoDigitLength()
    ensures forall p :: p in TwoDigitCodes ==> |p| == 3
  {
  }

  lemma ThreeDigitLength()
    ensures forall p :: p in ThreeDigitCodes ==> |p| == 4
  {
  }

  lemma PrefixesAreShort()
    ensures forall p :: p in PhoneCountryMap ==> 2 <= |p| <= LongestPrefixLength
  {
    TwoDigitLength();
    ThreeDigitLength();
    forall p | p in PhoneCountryMap ensures 2 <= |p| <= LongestPrefixLength {
      if p in OneDigitCodes {
        assert p == "+1";
      } else if p !in TwoDigitCodes {
        assert p in ThreeDigitCodes;
      }
    }
  }

  lemma TwoDigitNamed()
    ensures "" !in TwoDigitCodes.Values
  {
  }

  lemma ThreeDigitNamed()
    ensures "" !in ThreeDigitCodes.Values
  {
  }

  lemma CountriesNamed()
    ensures "" !in PhoneCountryMap.Values
  {
    TwoDigitNamed();
    ThreeDigitNamed();
    forall v | v in PhoneCountryMap.Values ensures v != "" {
      var p :| p in PhoneCountryMap && PhoneCountryMap[p] == v;
      if p in ThreeDigitCodes {
        assert v == ThreeDigitCodes[p] && v in ThreeDigitCodes.Values;
      } else if p in TwoDigitCodes {
        assert v == TwoDigitCodes[p] && v in TwoDigitCodes.Values;
      } else {
        assert p == "+1" && v == "United States";
      }
    }
  }

  lemma StripeName(code: string)
    requires code in StripeCountryCodes
    ensures StripeCountryCodes[code] in StripeCountryCodes.Values && StripeCountryCodes[code] != "Other"
  {
    if code in StripeThreeDigitCodes {
      StripeThreeNamed();
      assert StripeCountryCodes[code] == StripeThreeDigitCodes[code];
    } else {
      StripeTwoNamed();
      assert StripeCountryCodes[code] == StripeTwoDigitCodes[code];
    }
  }

  lemma StripeTwoNamed()
    ensures forall p :: p in StripeTwoDigitCodes ==> StripeTwoDigitCodes[p] != "Other"
  {
  }

  lemma StripeThreeNamed()
    ensures forall p :: p in StripeThreeDigitCodes ==> StripeThreeDigitCodes[p] != "Other"
  {
  }

  lemma UkPrefixes()
    ensures "+447" !in PhoneCountryMap
    ensures "+44" in PhoneCountryMap && PhoneCountryMap["+44"] == "United Kingdom"
  {
    UkLongPrefixMissing();
    UkTwoDigitCode();
  }

  lemma UkLongPrefixMissing()
    ensures "+447" !in PhoneCountryMap
  {
    assert "+447" !in OneDigitCodes;
    assert "+447" !in TwoDigitCodes by { TwoDigitLength(); }
    assert "+447" !in ThreeDigitCodes by {
      ThreeDigitShape();
      assert "+447"[2] == '4';
    }
  }

  lemma UkTwoDigitCode()
    ensures "+44" in PhoneCountryMap && PhoneCountryMap["+44"] == "United Kingdom"
  {
    assert TwoDigitCodes["+44"] == "United Kingdom";
    assert "+44" !in ThreeDigitCodes by { ThreeDigitLength(); }
    assert (OneDigitCodes + TwoDigitCodes)["+44"] == "United Kingdom";
  }

  /** Every three-digit calling code differs from `+44…` in its third
      character. */
  lemma ThreeDigitShape()
    ensures forall p :: p in ThreeDigitCodes ==> |p| == 4 && p[2] != '4'
  {
  }

  lemma StripeTwoDigitShape()
    ensures forall p :: p in StripeTwoDigitCodes ==> |p| == 2 && p[0] != '1'
  {
  }

  lemma StripeThreeDigitShape()
    ensures forall p :: p in StripeThreeDigitCodes ==> |p| == 3 && p[0] != '1' && p[1] != '4'
  {
  }

  lemma UkStripeCodes()
    ensures "447" !in StripeCountryCodes
    ensures "44" in StripeCountryCodes && StripeCountryCodes["44"] == "United Kingdom"
  {
    UkStripeLongMissing();
    UkStripeTwoDigit();
  }

  lemma UkStripeLongMissing()
    ensures "447" !in StripeCountryCodes
  {
    assert "447" !in StripeTwoDigitCodes by { StripeTwoDigitShape(); }
    assert "447" !in StripeThreeDigitCodes by {
      StripeThreeDigitShape();
      assert "447"[1] == '4';
    }
  }

  lemma UkStripeTwoDigit()
    ensures "44" in StripeCountryCodes && StripeCountryCodes["44"] == "United Kingdom"
  {
    assert "44" !in StripeThreeDigitCodes by { StripeThreeDigitShape(); }
    assert StripeTwoDigitCodes["44"] == "United Kingdom";
  }

  lemma PortugueseStripeCode()
    ensures "351" in StripeCountryCodes && StripeCountryCodes["351"] == "Portugal"
  {
  }

  /** No calling code of the card table starts with `1`. */
  lemma NorthAmericaNotListed()
    ensures forall p :: p in StripeCountryCodes ==> p != [] && p[0] != '1'
  {
    StripeTwoDigitShape();
    StripeThreeDigitShape();
  }

  lemma StripeCodesShort()
    ensures forall p :: p in StripeCountryCodes ==> 1 <= |p| <= 3
  {
    StripeTwoDigitShape();
    StripeThreeDigitShape();
  }

  lemma StripeCodesNamed()
    ensures "Other" !in StripeCountryCodes.Values
  {
    forall v | v in StripeCountryCodes.Values ensures v != "Other" {
      var p :| p in StripeCountryCodes && StripeCountryCodes[p] == v;
      StripeName(p);
    }
  }
}

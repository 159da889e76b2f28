/** `finance.py`: the financial breakdown written next to every
    reservation (platform fees, VAT, net revenue, expected payout,
    anticipation and per-night prices), which of its fields get an
    explanatory note, and the `FinanceService` helpers. Money is a real
    number; Python's `round(x, 2)` is the parameter `rnd`, so every
    statement here holds whatever rounding is used. */
module Finance {
  import opened Base
  import opened Calendar
  import opened Strptime

  /** The rates read from configuration. */
  datatype Config = Config(vatRate: real, airbnbFeePercent: real, lodgifyFeePercent: real)

  /** The dictionary `calculate_financials` returns; `anticipationDays` is
      `None` where Python stores "". */
  datatype Financials = Financials(
    airbnbFee: real, lodgifyFee: real, stripeFee: real, dynamicFee: real,
    totalFees: real, vatAmount: real, netRevenue: real, payoutExpected: real,
    anticipationDays: Option<nat>, pricePerNight: real, pricePerGuestPerNight: real)

  /** The breakdown returned when anything raises. */
  const ZeroFinancials: Financials :=
    Financials(0.0, 0.0, 0.0, 0.0, 0.0, 0.0, 0.0, 0.0, None, 0.0, 0.0)

  /** Texts `_to_float` treats as "no value". */
  const NullTexts: seq<string> := ["None", "nan", "null"]

  /** `_to_float`: a fee already computed upstream, read leniently. `None`,
      blank and null-like texts and unreadable texts are 0; a comma is read
      as the decimal point. */
  function ToFloat(v: Value): (r: real)
    ensures v.VNone? ==> r == 0.0
    ensures v.VNum? ==> r == v.x
    ensures v.VStr? && (Blank(v.s) || Strip(v.s) in NullTexts) ==> r == 0.0
    ensures v.VStr? && !Blank(v.s) && Strip(v.s) !in NullTexts ==>
              var x := ParseFloat(ReplaceChar(Strip(v.s), ',', "."));
              (x.Some? ==> r == x.value) && (x.None? ==> r == 0.0)
  {
    match v
    case VNone => 0.0
    case VNum(x) => x
    case VStr(s) =>
      StripEmptyIffBlank(s);
      ReadFeeText(Strip(s))
  }

  /** `_to_float` on an already trimmed text. */
  function ReadFeeText(t: string): (r: real)
    ensures t == [] || t in NullTexts ==> r == 0.0
    ensures t != [] && t !in NullTexts && ParseFloat(ReplaceChar(t, ',', ".")).Some? ==>
              r == ParseFloat(ReplaceChar(t, ',', ".")).value
    ensures ParseFloat(ReplaceChar(t, ',', ".")).None? ==> r == 0.0
  {
    if t == [] || t in NullTexts then 0.0
    else
      match ParseFloat(ReplaceChar(t, ',', "."))
      case Some(x) => x
      case None => 0.0
  }

  /** A percentage of an amount, rounded: `round(amount * rate, 2)`. */
  function PercentOf(rnd: real -> real, amount: real, rate: real): real {
    rnd(amount * rate)
  }

  /** The origin test: `str(origin).lower().strip() == "airbnb"`. */
  predicate IsAirbnbOrigin(v: Value) {
    v.VStr? && Strip(Lower(v.s)) == "airbnb"
  }

  // ---------------------------------------------------------------------
  // anticipation_days

  /** How one date value fares in the anticipation block: read from its
      first whitespace-separated token, skipped (not a text), rejected by
      `strptime`, or crashing because a blank text has no first token. */
  datatype Lead = Parsed(d: Date) | Skipped | Rejected | NoToken

  function LeadDate(v: Value): (r: Lead)
    ensures r.Parsed? ==> Valid(r.d)
    ensures r.NoToken? <==> v.VStr? && Split(v.s) == []
  {
    match v
    case VStr(s) =>
      var words := Split(s);
      if words == [] then NoToken
      else
        (match ParseDate(words[0], "%Y-%m-%d")
         case Some(d) => Parsed(d)
         case None => Rejected)
    case _ => Skipped
  }

  /** The outcome of the anticipation block: a day count, "" or an
      exception that escapes it (`IndexError` is not among the exceptions
      it catches). */
  datatype DaysOutcome = Days(n: nat) | NoDays | Escapes

  /** The anticipation block as written. The reservation date is read
      first: if it is rejected, the check-in is never looked at. */
  function AnticipationAsWritten(reservationDate: Value, checkIn: Value): (r: DaysOutcome)
    ensures !Truthy(reservationDate) || !Truthy(checkIn) ==> r == NoDays
    ensures r.Days? <==> Truthy(reservationDate) && Truthy(checkIn)
                         && LeadDate(reservationDate).Parsed? && LeadDate(checkIn).Parsed?
    ensures r.Days? ==> r.n == Max0(Ordinal(LeadDate(checkIn).d) - Ordinal(LeadDate(reservationDate).d))
  {
    if !(Truthy(reservationDate) && Truthy(checkIn)) then NoDays
    else
      match LeadDate(reservationDate)
      case NoToken => Escapes
      case Rejected => NoDays
      case Skipped =>
        (match LeadDate(checkIn)
         case NoToken => Escapes
         case _ => NoDays)
      case Parsed(rd) =>
        match LeadDate(checkIn)
        case NoToken => Escapes
        case Parsed(ci) => Days(Max0(Ordinal(ci) - Ordinal(rd)))
        case _ => NoDays
  }

  /** The anticipation block as evidently intended: a date that cannot be
      read leaves the count blank and never escapes. */
  function Anticipation(reservationDate: Value, checkIn: Value): (r: DaysOutcome)
    ensures !r.Escapes?
    ensures r.Days? <==> AnticipationAsWritten(reservationDate, checkIn).Days?
    ensures r.Days? ==> r == AnticipationAsWritten(reservationDate, checkIn)
  {
    match AnticipationAsWritten(reservationDate, checkIn)
    case Escapes => NoDays
    case other => other
  }

  /** The stored `anticipation_days`: the count, or "" (`None`). */
  function DaysOf(o: DaysOutcome): Option<nat> {
    if o.Days? then Some(o.n) else None
  }

  function Max0(x: int): nat {
    if x > 0 then x else 0
  }

  // ---------------------------------------------------------------------
  // calculate_financials

  /** The three numbers `calculate_financials` reads with `float()`;
      `None` when one of them raises. */
  datatype Numbers = Numbers(total: real, nights: real, guests: real)

  function ReadNumbers(rec: Record): (r: Option<Numbers>)
    ensures r.Some? <==> FloatOf(GetOr(rec, "total_price", VNum(0.0))).Some?
                         && FloatOf(GetOr(rec, "nights", VNum(0.0))).Some?
                         && FloatOf(GetOr(rec, "guests_count", VNum(1.0))).Some?
  {
    match (FloatOf(GetOr(rec, "total_price", VNum(0.0))), FloatOf(GetOr(rec, "nights", VNum(0.0))),
           FloatOf(GetOr(rec, "guests_count", VNum(1.0))))
    case (Some(t), Some(n), Some(g)) => Some(Numbers(t, n, g))
    case _ => None
  }

  /** The four platform fees: the airbnb fee is recomputed from the
      origin, the other three are copied from the reservation. */
  datatype Fees = Fees(airbnb: real, lodgify: real, stripe: real, dynamic: real)

  function ReadFees(rec: Record, cfg: Config, rnd: real -> real, total: real): (r: Fees)
    ensures r.airbnb == (if IsAirbnbOrigin(GetOr(rec, "origin", VStr(""))) then PercentOf(rnd, total, cfg.airbnbFeePercent) else 0.0)
    ensures r.lodgify == ToFloat(GetOr(rec, "lodgify_fee", VNum(0.0)))
    ensures r.stripe == ToFloat(GetOr(rec, "stripe_fee", VNum(0.0)))
    ensures r.dynamic == ToFloat(GetOr(rec, "dynamic_fee", VNum(0.0)))
  {
    Fees(if IsAirbnbOrigin(GetOr(rec, "origin", VStr(""))) then PercentOf(rnd, total, cfg.airbnbFeePercent) else 0.0,
         ToFloat(GetOr(rec, "lodgify_fee", VNum(0.0))),
         ToFloat(GetOr(rec, "stripe_fee", VNum(0.0))),
         ToFloat(GetOr(rec, "dynamic_fee", VNum(0.0))))
  }

  /** The breakdown once the numbers and fees are read and the
      anticipation block has not escaped. */
  function Breakdown(fees: Fees, nums: Numbers, cfg: Config, rnd: real -> real, days: Option<nat>)
    : (r: Financials)
    ensures r.airbnbFee == fees.airbnb && r.lodgifyFee == fees.lodgify
    ensures r.stripeFee == fees.stripe && r.dynamicFee == fees.dynamic
    ensures r.vatAmount == PercentOf(rnd, nums.total, cfg.vatRate)
    ensures r.totalFees == rnd(r.airbnbFee + r.lodgifyFee + r.stripeFee + r.dynamicFee)
    ensures r.netRevenue == rnd(nums.total - (r.airbnbFee + r.lodgifyFee + r.stripeFee + r.dynamicFee) - r.vatAmount)
    ensures r.payoutExpected == rnd(nums.total - r.airbnbFee - r.lodgifyFee - r.stripeFee)
    ensures r.anticipationDays == days
    ensures nums.nights <= 0.0 ==> r.pricePerNight == 0.0
    ensures nums.nights > 0.0 ==> r.pricePerNight == rnd(nums.total / nums.nights)
    ensures !(nums.nights > 0.0 && nums.guests > 0.0) ==> r.pricePerGuestPerNight == 0.0
    ensures nums.nights > 0.0 && nums.guests > 0.0 ==>
              r.pricePerGuestPerNight == rnd(nums.total / (nums.nights * nums.guests))
  {
    var sum := fees.airbnb + fees.lodgify + fees.stripe + fees.dynamic;
    var vat := PercentOf(rnd, nums.total, cfg.vatRate);
    Financials(
      fees.airbnb, fees.lodgify, fees.stripe, fees.dynamic, rnd(sum), vat, rnd(nums.total - sum - vat),
      rnd(nums.total - fees.airbnb - fees.lodgify - fees.stripe), days,
      if nums.nights > 0.0 then rnd(nums.total / nums.nights) else 0.0,
      if nums.nights > 0.0 && nums.guests > 0.0 then rnd(nums.total / (nums.nights * nums.guests)) else 0.0)
  }

  /** `calculate_financials(reservation, config)` as written: every
      exception, including one escaping the anticipation block, yields the
      all-zero breakdown. */
  function CalculateFinancialsAsWritten(rec: Record, cfg: Config, rnd: real -> real): (r: Financials)
    ensures ReadNumbers(rec).None? ==> r == ZeroFinancials
    ensures AnticipationAsWritten(GetOr(rec, "reservation_date", VStr("")), GetOr(rec, "check_in", VStr(""))).Escapes?
            ==> r == ZeroFinancials
  {
    match ReadNumbers(rec)
    case None => ZeroFinancials
    case Some(nums) =>
      match AnticipationAsWritten(GetOr(rec, "reservation_date", VStr("")), GetOr(rec, "check_in", VStr("")))
      case Escapes => ZeroFinancials
      case Days(n) => Breakdown(ReadFees(rec, cfg, rnd, nums.total), nums, cfg, rnd, Some(n))
      case NoDays => Breakdown(ReadFees(rec, cfg, rnd, nums.total), nums, cfg, rnd, None)
  }

  /** `calculate_financials` with the anticipation block confined to
      `anticipation_days`: only an unreadable number zeroes the breakdown. */
  function CalculateFinancials(rec: Record, cfg: Config, rnd: real -> real): (r: Financials)
    ensures ReadNumbers(rec).None? ==> r == ZeroFinancials
    ensures ReadNumbers(rec).Some? ==>
              r == Breakdown(ReadFees(rec, cfg, rnd, ReadNumbers(rec).value.total), ReadNumbers(rec).value, cfg, rnd,
                             DaysOf(Anticipation(GetOr(rec, "reservation_date", VStr("")), GetOr(rec, "check_in", VStr("")))))
  {
    match ReadNumbers(rec)
    case None => ZeroFinancials
    case Some(nums) =>
      Breakdown(ReadFees(rec, cfg, rnd, nums.total), nums, cfg, rnd,
                DaysOf(Anticipation(GetOr(rec, "reservation_date", VStr("")), GetOr(rec, "check_in", VStr("")))))
  }

  // ---------------------------------------------------------------------
  // Properties of the breakdown

  /** The two definitions differ only where the anticipation block
      escapes. */
  lemma AsWrittenAgreesOtherwise(rec: Record, cfg: Config, rnd: real -> real)
    requires !AnticipationAsWritten(GetOr(rec, "reservation_date", VStr("")), GetOr(rec, "check_in", VStr(""))).Escapes?
    ensures CalculateFinancialsAsWritten(rec, cfg, rnd) == CalculateFinancials(rec, cfg, rnd)
  {
  }

  /** A whitespace-only reservation date beside a set check-in makes
      `split()[0]` raise `IndexError`, which the anticipation block does not
      catch: the whole breakdown comes back zeroed, VAT included, although
      the price was readable. */
  lemma BlankReservationDateZeroesFees(rec: Record, cfg: Config, rnd: real -> real)
    requires ReadNumbers(rec).Some?
    requires "reservation_date" in rec && rec["reservation_date"].VStr?
    requires rec["reservation_date"].s != [] && Blank(rec["reservation_date"].s)
    requires "check_in" in rec && Truthy(rec["check_in"])
    ensures CalculateFinancialsAsWritten(rec, cfg, rnd) == ZeroFinancials
  {
    var s := rec["reservation_date"].s;
    assert LStrip(s) == [] by { StripEmptyIffBlank(s); }
    assert Split(s) == [];
    assert LeadDate(rec["reservation_date"]) == NoToken;
  }

  /** The intended breakdown of the same reservation keeps its VAT and
      fees and only leaves `anticipation_days` blank. */
  lemma BlankReservationDateKeepsFees(rec: Record, cfg: Config, rnd: real -> real)
    requires ReadNumbers(rec).Some?
    requires "reservation_date" in rec && rec["reservation_date"].VStr?
    requires rec["reservation_date"].s != [] && Blank(rec["reservation_date"].s)
    ensures CalculateFinancials(rec, cfg, rnd).anticipationDays.None?
    ensures CalculateFinancials(rec, cfg, rnd).vatAmount == PercentOf(rnd, ReadNumbers(rec).value.total, cfg.vatRate)
  {
    var s := rec["reservation_date"].s;
    assert LStrip(s) == [] by { StripEmptyIffBlank(s); }
    assert Split(s) == [];
    assert LeadDate(rec["reservation_date"]) == NoToken;
    DatesNeverZeroFees(rec, cfg, rnd);
  }

  /** Whenever the numbers are readable the fee fields are computed,
      whatever the dates hold. */
  lemma DatesNeverZeroFees(rec: Record, cfg: Config, rnd: real -> real)
    requires ReadNumbers(rec).Some?
    ensures CalculateFinancials(rec, cfg, rnd).vatAmount == PercentOf(rnd, ReadNumbers(rec).value.total, cfg.vatRate)
    ensures CalculateFinancials(rec, cfg, rnd).lodgifyFee == ToFloat(GetOr(rec, "lodgify_fee", VNum(0.0)))
  {
    var nums := ReadNumbers(rec).value;
    var fees := ReadFees(rec, cfg, rnd, nums.total);
    var days := DaysOf(Anticipation(GetOr(rec, "reservation_date", VStr("")), GetOr(rec, "check_in", VStr(""))));
    var b := Breakdown(fees, nums, cfg, rnd, days);
    assert CalculateFinancials(rec, cfg, rnd) == b;
  }

  /** Only an airbnb booking is charged the airbnb fee. */
  lemma AirbnbFeeOnlyForAirbnb(rec: Record, cfg: Config, rnd: real -> real)
    requires !IsAirbnbOrigin(GetOr(rec, "origin", VStr("")))
    ensures CalculateFinancials(rec, cfg, rnd).airbnbFee == 0.0
  {
  }

  /** The dynamic fee enters the total fees and the net revenue, never the
      expected payout: two reservations that differ only in it have the
      same payout. */
  lemma PayoutIgnoresDynamicFee(rec: Record, cfg: Config, rnd: real -> real, v: Value)
    ensures CalculateFinancials(rec["dynamic_fee" := v], cfg, rnd).payoutExpected
            == CalculateFinancials(rec, cfg, rnd).payoutExpected
  {
    var rec' := rec["dynamic_fee" := v];
    SameNumbers(rec, "dynamic_fee", v);
    if ReadNumbers(rec).Some? {
      var nums := ReadNumbers(rec).value;
      var f := ReadFees(rec, cfg, rnd, nums.total);
      var f' := ReadFees(rec', cfg, rnd, nums.total);
      var d := DaysOf(Anticipation(GetOr(rec, "reservation_date", VStr("")), GetOr(rec, "check_in", VStr(""))));
      var d' := DaysOf(Anticipation(GetOr(rec', "reservation_date", VStr("")), GetOr(rec', "check_in", VStr(""))));
      FeesIgnoreDynamic(rec, cfg, rnd, nums.total, v);
      SamePayout(CalculateFinancials(rec', cfg, rnd), CalculateFinancials(rec, cfg, rnd), f', f, nums, cfg, rnd, d', d);
    }
  }

  /** Two breakdowns of the same numbers whose airbnb, lodgify and stripe
      fees agree have the same expected payout. */
  lemma SamePayout(b: Financials, b': Financials, f: Fees, f': Fees, nums: Numbers, cfg: Config, rnd: real -> real,
                   d: Option<nat>, d': Option<nat>)
    requires b == Breakdown(f, nums, cfg, rnd, d) && b' == Breakdown(f', nums, cfg, rnd, d')
    requires f.airbnb == f'.airbnb && f.lodgify == f'.lodgify && f.stripe == f'.stripe
    ensures b.payoutExpected == b'.payoutExpected
  {
    assert nums.total - f.airbnb - f.lodgify - f.stripe == nums.total - f'.airbnb - f'.lodgify - f'.stripe;
  }

  /** The dynamic fee column feeds only the dynamic fee. */
  lemma FeesIgnoreDynamic(rec: Record, cfg: Config, rnd: real -> real, total: real, v: Value)
    ensures var f := ReadFees(rec, cfg, rnd, total);
            var f' := ReadFees(rec["dynamic_fee" := v], cfg, rnd, total);
            f.airbnb == f'.airbnb && f.lodgify == f'.lodgify && f.stripe == f'.stripe
  {
    var rec' := rec["dynamic_fee" := v];
    assert GetOr(rec', "origin", VStr("")) == GetOr(rec, "origin", VStr(""));
    assert GetOr(rec', "lodgify_fee", VNum(0.0)) == GetOr(rec, "lodgify_fee", VNum(0.0));
    assert GetOr(rec', "stripe_fee", VNum(0.0)) == GetOr(rec, "stripe_fee", VNum(0.0));
  }

  /** Changing a column other than the three numbers leaves them as read. */
  lemma SameNumbers(rec: Record, k: string, v: Value)
    requires k != "total_price" && k != "nights" && k != "guests_count"
    ensures ReadNumbers(rec[k := v]) == ReadNumbers(rec)
  {
    var rec' := rec[k := v];
    assert GetOr(rec', "total_price", VNum(0.0)) == GetOr(rec, "total_price", VNum(0.0));
    assert GetOr(rec', "nights", VNum(0.0)) == GetOr(rec, "nights", VNum(0.0));
    assert GetOr(rec', "guests_count", VNum(1.0)) == GetOr(rec, "guests_count", VNum(1.0));
  }

  lemma NotNullText(s: string)
    requires s != [] && IsDigit(s[0])
    ensures s !in NullTexts
  {
    assert s[0] != "None"[0] && s[0] != "nan"[0] && s[0] != "null"[0];
  }

  lemma NoCommaInDigits(s: string)
    requires forall i :: 0 <= i < |s| ==> IsDigit(s[i])
    ensures ',' !in s
  {
  }

  lemma CommaToPoint(m: string, f: string)
    requires forall i :: 0 <= i < |m| ==> IsDigit(m[i])
    requires forall i :: 0 <= i < |f| ==> IsDigit(f[i])
    ensures ReplaceChar(m + "," + f, ',', ".") == m + "." + f
  {
    NoCommaInDigits(m);
    NoCommaInDigits(f);
    ReplaceCharAppend(m + ",", f, ',', ".");
    ReplaceCharAppend(m, ",", ',', ".");
    ReplaceCharAbsent(m, ',', ".");
    ReplaceCharAbsent(f, ',', ".");
    assert ReplaceChar(",", ',', ".") == ".";
  }

  lemma DecimalTextEnds(m: string, f: string)
    requires AllDigits(m)
    requires forall i :: 0 <= i < |f| ==> IsDigit(f[i])
    ensures var s := m + "," + f; s != [] && IsDigit(s[0]) && !IsSpace(s[|s| - 1])
  {
    var s := m + "," + f;
    assert s[0] == m[0];
    if f == [] { assert s[|s| - 1] == ','; } else { assert s[|s| - 1] == f[|f| - 1]; }
  }

  lemma DecimalTextStripped(m: string, f: string)
    requires AllDigits(m)
    requires forall i :: 0 <= i < |f| ==> IsDigit(f[i])
    ensures Strip(m + "," + f) == m + "," + f
    ensures m + "," + f !in NullTexts
  {
    var s := m + "," + f;
    DecimalTextEnds(m, f);
    StripOfStripped(s);
    NotNullText(s);
  }

  /** A fee written with a decimal comma is read like the same fee with a
      decimal point: "12,5" is 12.5. */
  lemma DecimalCommaRead(m: string, f: string)
    requires AllDigits(m)
    requires forall i :: 0 <= i < |f| ==> IsDigit(f[i])
    ensures ToFloat(VStr(m + "," + f)) == DecimalValue(m, f)
  {
    var s := m + "," + f;
    assert ToFloat(VStr(s)) == ReadFeeText(s) by {
      DecimalTextStripped(m, f);
    }
    assert ReadFeeText(s) == DecimalValue(m, f) by {
      DecimalTextStripped(m, f);
      DecimalTextEnds(m, f);
      CommaToPoint(m, f);
      ParseDecimal(m, f);
    }
  }

  // ---------------------------------------------------------------------
  // generate_financial_notes (which fields get a note)

  /** The value of one noted field in a breakdown. */
  function FieldValue(fin: Financials, f: string): real {
    if f == "vat_amount" then fin.vatAmount
    else if f == "airbnb_fee" then fin.airbnbFee
    else if f == "lodgify_fee" then fin.lodgifyFee
    else if f == "stripe_fee" then fin.stripeFee
    else if f == "dynamic_fee" then fin.dynamicFee
    else if f == "total_fees" then fin.totalFees
    else if f == "net_revenue" then fin.netRevenue
    else if f == "price_per_night" then fin.pricePerNight
    else if f == "price_per_guest_per_night" then fin.pricePerGuestPerNight
    else if f == "payout_expected" then fin.payoutExpected
    else 0.0
  }

  /** Whether a field gets a note: its value is non-zero and, for the
      per-night prices, the division was possible. */
  predicate Noted(f: string, nums: Numbers, fin: Financials) {
    FieldValue(fin, f) != 0.0
    && (f == "price_per_night" ==> nums.nights > 0.0)
    && (f == "price_per_guest_per_night" ==> nums.nights > 0.0 && nums.guests > 0.0)
  }

  /** The fields `generate_financial_notes` writes a note for; empty when
      reading the reservation's numbers raises. */
  function NoteFields(rec: Record, fin: Financials): (r: set<string>)
    ensures ReadNumbers(rec).None? ==> r == {}
    ensures r <= NotedFields
    ensures forall f :: f in r ==> FieldValue(fin, f) != 0.0
    ensures forall f :: (f in NotedFields && ReadNumbers(rec).Some? && FieldValue(fin, f) != 0.0
                         && f != "price_per_night" && f != "price_per_guest_per_night") ==> f in r
    ensures ReadNumbers(rec).Some? ==>
              ("price_per_night" in r <==> fin.pricePerNight != 0.0 && ReadNumbers(rec).value.nights > 0.0)
    ensures ReadNumbers(rec).Some? ==>
              ("price_per_guest_per_night" in r <==>
                 (fin.pricePerGuestPerNight != 0.0
                  && ReadNumbers(rec).value.nights > 0.0 && ReadNumbers(rec).value.guests > 0.0))
  {
    match ReadNumbers(rec)
    case None => {}
    case Some(nums) => set f | f in NotedFields && Noted(f, nums, fin)
  }

  /** The fields that can carry a note (`anticipation_days` never does). */
  const NotedFields: set<string> := {
    "vat_amount", "airbnb_fee", "lodgify_fee", "stripe_fee", "dynamic_fee", "total_fees",
    "net_revenue", "price_per_night", "price_per_guest_per_night", "payout_expected"
  }

  /** A zeroed breakdown gets no notes at all. */
  lemma ZeroBreakdownHasNoNotes(rec: Record)
    ensures NoteFields(rec, ZeroFinancials) == {}
  {
    forall f | f in NotedFields ensures FieldValue(ZeroFinancials, f) == 0.0 { }
  }

  /** A booking not made on airbnb never gets an airbnb-fee note. */
  lemma NoAirbnbNoteOffAirbnb(rec: Record, cfg: Config, rnd: real -> real)
    requires !IsAirbnbOrigin(GetOr(rec, "origin", VStr("")))
    ensures "airbnb_fee" !in NoteFields(rec, CalculateFinancials(rec, cfg, rnd))
  {
  }

  /** No per-night note for a stay without nights. */
  lemma NoPerNightNoteWithoutNights(rec: Record, cfg: Config, rnd: real -> real)
    requires ReadNumbers(rec).Some? && ReadNumbers(rec).value.nights <= 0.0
    ensures "price_per_night" !in NoteFields(rec, CalculateFinancials(rec, cfg, rnd))
    ensures "price_per_guest_per_night" !in NoteFields(rec, CalculateFinancials(rec, cfg, rnd))
  {
  }

  // ---------------------------------------------------------------------
  // FinanceService

  /** The rates a `FinanceService` is built with; the Stripe table maps
      upper-case country codes to rates (any value). */
  datatype Service = Service(vatRate: real, airbnbFeePercent: real, lodgifyFeePercent: real,
                             stripeFeeTable: map<string, Value>)

  /** The VAT share of a VAT-inclusive amount, before rounding. */
  function VatShare(amount: real, vatRate: real): real
    requires 1.0 + vatRate != 0.0
  {
    amount * (vatRate / (1.0 + vatRate))
  }

  /** The net share of a VAT-inclusive amount, before rounding. */
  function NetShare(amount: real, vatRate: real): real
    requires 1.0 + vatRate != 0.0
  {
    amount / (1.0 + vatRate)
  }

  /** `calculate_vat`: `None` where Python divides by zero. */
  function CalculateVat(svc: Service, rnd: real -> real, amount: real): (r: Option<real>)
    ensures r.None? <==> svc.vatRate == -1.0
    ensures r.Some? ==> r.value == rnd(VatShare(amount, svc.vatRate))
  {
    if 1.0 + svc.vatRate == 0.0 then None else Some(rnd(VatShare(amount, svc.vatRate)))
  }

  /** `calculate_net_amount`. */
  function CalculateNetAmount(svc: Service, rnd: real -> real, gross: real): (r: Option<real>)
    ensures r.None? <==> svc.vatRate == -1.0
    ensures r.Some? ==> r.value == rnd(NetShare(gross, svc.vatRate))
  {
    if 1.0 + svc.vatRate == 0.0 then None else Some(rnd(NetShare(gross, svc.vatRate)))
  }

  /** Before rounding, the VAT share and the net share make up the gross
      amount. */
  lemma VatAndNetSplitGross(amount: real, vatRate: real)
    requires 1.0 + vatRate != 0.0
    ensures VatShare(amount, vatRate) + NetShare(amount, vatRate) == amount
  {
    var k := 1.0 + vatRate;
    assert vatRate / k + 1.0 / k == 1.0;
    assert amount * (vatRate / k) + amount * (1.0 / k) == amount;
    assert amount / k == amount * (1.0 / k);
  }

  /** `calculate_stripe_fee(amount, country)`: the table rate for the
      upper-cased country (0.0 when absent), 0.0 flat when the table holds
      something that is not a number. */
  function CalculateStripeFee(svc: Service, rnd: real -> real, amount: real, country: string): (r: real)
    ensures Upper(country) in svc.stripeFeeTable && !svc.stripeFeeTable[Upper(country)].VNum? ==> r == 0.0
    ensures Upper(country) in svc.stripeFeeTable && svc.stripeFeeTable[Upper(country)].VNum? ==>
              r == PercentOf(rnd, amount, svc.stripeFeeTable[Upper(country)].x)
    ensures Upper(country) !in svc.stripeFeeTable ==> r == PercentOf(rnd, amount, 0.0)
  {
    var rate := GetOr(svc.stripeFeeTable, Upper(country), VNum(0.0));
    if rate.VNum? then PercentOf(rnd, amount, rate.x) else 0.0
  }

  /** The dictionary `calculate_net_revenue` returns. */
  datatype NetRevenue = NetRevenue(gross: real, vat: real, fees: real, netRevenue: real)

  /** `calculate_net_revenue(gross, channel)`: the channel's own fee (airbnb
      or lodgify, chosen by the trimmed lower-cased channel) plus VAT. */
  function CalculateNetRevenue(svc: Service, rnd: real -> real, gross: real, channel: string)
    : (r: Option<NetRevenue>)
    ensures r.None? <==> svc.vatRate == -1.0
    ensures r.Some? ==> r.value.gross == gross && Some(r.value.vat) == CalculateVat(svc, rnd, gross)
    ensures r.Some? ==> r.value.netRevenue == rnd(gross - r.value.fees)
    ensures r.Some? && Strip(Lower(channel)) != "airbnb" && Strip(Lower(channel)) != "lodgify" ==>
              r.value.fees == r.value.vat
    ensures r.Some? && Strip(Lower(channel)) == "airbnb" ==>
              r.value.fees == PercentOf(rnd, gross, svc.airbnbFeePercent) + r.value.vat
    ensures r.Some? && Strip(Lower(channel)) == "lodgify" ==>
              r.value.fees == PercentOf(rnd, gross, svc.lodgifyFeePercent) + r.value.vat
  {
    var ch := Strip(Lower(channel));
    var airbnb := if ch == "airbnb" then CalculateAirbnbFee(svc, rnd, gross) else 0.0;
    var lodgify := if ch == "lodgify" then CalculateLodgifyFee(svc, rnd, gross) else 0.0;
    match CalculateVat(svc, rnd, gross)
    case None => None
    case Some(vat) =>
      var fees := airbnb + lodgify + vat;
      Some(NetRevenue(gross, vat, fees, rnd(gross - fees)))
  }

  /** `calculate_airbnb_fee` and `calculate_lodgify_fee`: the rate applied
      to the amount, rounded. */
  function CalculateAirbnbFee(svc: Service, rnd: real -> real, amount: real): real {
    PercentOf(rnd, amount, svc.airbnbFeePercent)
  }

  function CalculateLodgifyFee(svc: Service, rnd: real -> real, amount: real): real {
    PercentOf(rnd, amount, svc.lodgifyFeePercent)
  }

  /** An airbnb channel's fees are the airbnb fee plus VAT. */
  lemma NetRevenueAirbnb(svc: Service, rnd: real -> real, gross: real)
    requires svc.vatRate != -1.0
    ensures CalculateNetRevenue(svc, rnd, gross, "airbnb").Some?
    ensures CalculateNetRevenue(svc, rnd, gross, "airbnb").value.fees
            == CalculateAirbnbFee(svc, rnd, gross) + CalculateVat(svc, rnd, gross).value
  {
    assert Lower("airbnb") == "airbnb";
    StripOfStripped("airbnb");
  }
}

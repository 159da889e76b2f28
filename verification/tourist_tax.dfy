/** The municipal tourist tax of one guest for one stay: 2 EUR for each
    night on which the guest is at least 16, counting at most 7 nights.
    Age is taken per night as `floor(days_alive / 365.25)`. The current
    date is a parameter. */
module TouristTax {
  import opened Base
  import opened Calendar
  import opened Strptime
  import opened StrptimeFacts
  import opened DateUtils

  const RatePerNight: int := 2
  const MaxPaidNights: int := 7
  const AdultAge: int := 16

  /** Days of age at which `floor(days / 365.25)` first reaches 16. */
  const AdultDays: int := 5844

  /** The per-night age rule, as the source computes it. */
  predicate Chargeable(daysOld: int) {
    ((daysOld as real) / 365.25).Floor >= AdultAge
  }

  /** The age rule is an integer threshold. */
  lemma ChargeableIffThreshold(daysOld: int)
    ensures Chargeable(daysOld) <==> daysOld >= AdultDays
  {
    var q := (daysOld as real) / 365.25;
    if daysOld >= AdultDays {
      assert q >= 16.0;
    } else {
      assert daysOld <= AdultDays - 1;
      assert q < 16.0;
    }
  }

  /** The number of chargeable nights among the `n` nights starting on day
      number `first`, for a guest born on day number `dob`. */
  function ChargeableNights(first: int, n: nat, dob: int): (c: nat)
    ensures c <= n
  {
    if n == 0 then 0
    else ChargeableNights(first, n - 1, dob) + (if Chargeable(first + n - 1 - dob) then 1 else 0)
  }

  /** The nights from the guest's threshold day on are exactly the
      chargeable ones. */
  lemma {:induction false} ChargeableNightsClosedForm(first: int, n: nat, dob: int)
    ensures ChargeableNights(first, n, dob)
            == if first >= dob + AdultDays then n
               else if first + n <= dob + AdultDays then 0
               else first + n - (dob + AdultDays)
  {
    if n > 0 {
      ChargeableNightsClosedForm(first, n - 1, dob);
      ChargeableIffThreshold(first + n - 1 - dob);
    }
  }

  /** The source's `for i in range(total_nights)` loop. */
  method CountChargeableNights(checkIn: int, totalNights: nat, dob: int) returns (count: nat)
    ensures count == ChargeableNights(checkIn, totalNights, dob)
  {
    count := 0;
    var i := 0;
    while i < totalNights
      invariant 0 <= i <= totalNights
      invariant count == ChargeableNights(checkIn, i, dob)
    {
      var daysOld := checkIn + i - dob;
      if ((daysOld as real) / 365.25).Floor >= AdultAge {
        count := count + 1;
      }
      i := i + 1;
    }
  }

  datatype Breakdown = Breakdown(
    totalNights: int,
    chargeableNights: int,
    paidNights: int,
    taxAmount: int,
    perNightRate: int)

  /** `calculate_tourist_tax_detailed` once the three dates are known. */
  function DetailedOnDates(checkIn: Date, checkOut: Date, dob: Date, today: Date): (b: Breakdown)
    requires Valid(checkIn) && Valid(checkOut) && Valid(dob) && Valid(today)
    ensures b.perNightRate == RatePerNight
    ensures 0 <= b.chargeableNights <= b.totalNights || (b.totalNights < 0 && b.chargeableNights == 0)
    ensures b.paidNights == if b.chargeableNights < MaxPaidNights then b.chargeableNights else MaxPaidNights
    ensures b.taxAmount == RatePerNight * b.paidNights
    ensures Ordinal(checkOut) <= Ordinal(checkIn) ==> b == Breakdown(0, 0, 0, 0, RatePerNight)
    ensures Ordinal(checkIn) < Ordinal(checkOut) ==> b.totalNights == Ordinal(checkOut) - Ordinal(checkIn)
    ensures Ordinal(checkIn) < Ordinal(checkOut) && Ordinal(dob) > Ordinal(today) ==> b.taxAmount == 0
  {
    var ci, co := Ordinal(checkIn), Ordinal(checkOut);
    if co <= ci then Breakdown(0, 0, 0, 0, RatePerNight)
    else if Ordinal(dob) > Ordinal(today) then Breakdown(co - ci, 0, 0, 0, RatePerNight)
    else
      var total := co - ci;
      var chargeable := ChargeableNights(ci, total, Ordinal(dob));
      var paid := if chargeable < MaxPaidNights then chargeable else MaxPaidNights;
      Breakdown(total, chargeable, paid, paid * RatePerNight, RatePerNight)
  }

  /** `calculate_tourist_tax` once the three dates are known. */
  function TaxOnDates(checkIn: Date, checkOut: Date, dob: Date, today: Date): (tax: int)
    requires Valid(checkIn) && Valid(checkOut) && Valid(dob) && Valid(today)
    ensures 0 <= tax <= RatePerNight * MaxPaidNights && tax % 2 == 0
    ensures Ordinal(checkOut) <= Ordinal(checkIn) ==> tax == 0
    ensures Ordinal(dob) > Ordinal(today) ==> tax == 0
  {
    var ci, co, born := Ordinal(checkIn), Ordinal(checkOut), Ordinal(dob);
    if co <= ci then 0
    else if born > Ordinal(today) then 0
    else TaxForNights(ci, co - ci, born)
  }

  /** The loop and the cap of `calculate_tourist_tax` for a stay of
      `totalNights` nights from day number `checkIn`. */
  function TaxForNights(checkIn: int, totalNights: int, dob: int): (tax: int)
    ensures 0 <= tax <= RatePerNight * MaxPaidNights && tax % 2 == 0
    ensures totalNights <= 0 ==> tax == 0
  {
    if totalNights <= 0 then 0
    else
      var chargeable := ChargeableNights(checkIn, totalNights, dob);
      var paid := if chargeable < MaxPaidNights then chargeable else MaxPaidNights;
      paid * RatePerNight
  }

  /** Both entry points agree on the amount. */
  lemma TaxMatchesDetailed(checkIn: Date, checkOut: Date, dob: Date, today: Date)
    requires Valid(checkIn) && Valid(checkOut) && Valid(dob) && Valid(today)
    ensures TaxOnDates(checkIn, checkOut, dob, today) == DetailedOnDates(checkIn, checkOut, dob, today).taxAmount
  {
  }

  /** The amount in closed form: each night from the day the guest's age
      reaches 16 counts, up to seven. */
  lemma TaxClosedForm(checkIn: Date, checkOut: Date, dob: Date, today: Date)
    requires Valid(checkIn) && Valid(checkOut) && Valid(dob) && Valid(today)
    requires Ordinal(checkIn) < Ordinal(checkOut) && Ordinal(dob) <= Ordinal(today)
    ensures var ci, co, t := Ordinal(checkIn), Ordinal(checkOut), Ordinal(dob) + AdultDays;
            var adultNights := if ci >= t then co - ci else if co <= t then 0 else co - t;
            TaxOnDates(checkIn, checkOut, dob, today)
              == RatePerNight * (if adultNights < MaxPaidNights then adultNights else MaxPaidNights)
  {
    ChargeableNightsClosedForm(Ordinal(checkIn), Ordinal(checkOut) - Ordinal(checkIn), Ordinal(dob));
  }

  // ---------------------------------------------------------------------
  // The entry points on raw sheet values

  /** Normalise a date value and read it back with `%Y-%m-%d`. */
  function ReadDate(v: Value): (r: Option<Date>)
    ensures r.Some? ==> Valid(r.value)
  {
    match NormalizeDate(v)
    case Err(_) => None
    case Ok(s) => ParseDate(s, "%Y-%m-%d")
  }

  const InvalidDateFormat: string := "Invalid date format"

  /** `calculate_tourist_tax(check_in, check_out, dob)` with "today" given. */
  function CalculateTouristTax(checkIn: Value, checkOut: Value, dob: Value, today: Date): (r: Result<int>)
    requires Valid(today)
    ensures r.Err? <==> ReadDate(checkIn).None? || ReadDate(checkOut).None? || ReadDate(dob).None?
    ensures r.Err? ==> r.msg == InvalidDateFormat
    ensures r.Ok? ==> 0 <= r.value <= 14 && r.value % 2 == 0
    ensures r.Ok? ==> r.value == TaxOnDates(ReadDate(checkIn).value, ReadDate(checkOut).value, ReadDate(dob).value, today)
  {
    match (ReadDate(checkIn), ReadDate(checkOut), ReadDate(dob))
    case (Some(ci), Some(co), Some(b)) => Ok(TaxOnDates(ci, co, b, today))
    case _ => Err(InvalidDateFormat)
  }

  /** `calculate_tourist_tax_detailed(check_in, check_out, dob)`. */
  function CalculateTouristTaxDetailed(checkIn: Value, checkOut: Value, dob: Value, today: Date)
    : (r: Result<Breakdown>)
    requires Valid(today)
    ensures r.Err? <==> CalculateTouristTax(checkIn, checkOut, dob, today).Err?
    ensures r.Ok? ==> r.value.taxAmount == CalculateTouristTax(checkIn, checkOut, dob, today).value
    ensures r.Ok? ==> r.value.chargeableNights <= r.value.totalNights || r.value.totalNights < 0
  {
    match (ReadDate(checkIn), ReadDate(checkOut), ReadDate(dob))
    case (Some(ci), Some(co), Some(b)) =>
      TaxMatchesDetailed(ci, co, b, today);
      Ok(DetailedOnDates(ci, co, b, today))
    case _ => Err(InvalidDateFormat)
  }

  /** A canonical date text reads back as its date. */
  lemma ReadIso(d: Date)
    requires Valid(d)
    ensures ReadDate(VStr(Iso(d))) == Some(d)
  {
    NormalizeIdempotent(d);
    ParseIso(d);
  }

  // ---------------------------------------------------------------------
  // The documented scenarios (stay 2025-06-01 to 2025-06-05 unless noted)

  const June1: Date := Date(2025, 6, 1)
  const June5: Date := Date(2025, 6, 5)

  lemma StayOrdinals()
    ensures Ordinal(June1) == 739403 && Ordinal(June5) == 739407
  {
    assert DaysBeforeYear(2025) == 739251;
  }

  /** An adult pays for all four nights. */
  lemma AdultFourNights(today: Date)
    requires Valid(today) && Before(Date(2000, 1, 1), today)
    ensures TaxOnDates(June1, June5, Date(2000, 1, 1), today) == 8
  {
    StayOrdinals();
    assert Ordinal(Date(2000, 1, 1)) == 730120 by { assert DaysBeforeYear(2000) == 730119; }
    OrdinalOrder(Date(2000, 1, 1), today);
    TaxClosedForm(June1, June5, Date(2000, 1, 1), today);
  }

  /** Nine adult nights (2025-06-01 to 2025-06-10) are capped at seven. */
  lemma AdultNineNightsCapped(today: Date)
    requires Valid(today) && Before(Date(2000, 1, 1), today)
    ensures TaxOnDates(June1, Date(2025, 6, 10), Date(2000, 1, 1), today) == 14
  {
    StayOrdinals();
    assert Ordinal(Date(2025, 6, 10)) == 739412;
    assert Ordinal(Date(2000, 1, 1)) == 730120 by { assert DaysBeforeYear(2000) == 730119; }
    OrdinalOrder(Date(2000, 1, 1), today);
    TaxClosedForm(June1, Date(2025, 6, 10), Date(2000, 1, 1), today);
  }

  /** A guest aged 15 throughout pays nothing. */
  lemma MinorPaysNothing(today: Date)
    requires Valid(today) && Before(Date(2010, 6, 1), today)
    ensures TaxOnDates(June1, June5, Date(2010, 6, 1), today) == 0
  {
    StayOrdinals();
    assert Ordinal(Date(2010, 6, 1)) == 733924 by { assert DaysBeforeYear(2010) == 733772; }
    OrdinalOrder(Date(2010, 6, 1), today);
    TaxClosedForm(June1, June5, Date(2010, 6, 1), today);
  }

  /** A guest turning 16 on 2025-06-03 pays for the last two nights only. */
  lemma TurningSixteenMidStay(today: Date)
    requires Valid(today) && Before(Date(2009, 6, 3), today)
    ensures TaxOnDates(June1, June5, Date(2009, 6, 3), today) == 4
  {
    StayOrdinals();
    assert Ordinal(Date(2009, 6, 3)) == 733561 by { assert DaysBeforeYear(2009) == 733407; }
    OrdinalOrder(Date(2009, 6, 3), today);
    TaxClosedForm(June1, June5, Date(2009, 6, 3), today);
  }

  /** A guest exactly 16 at check-in pays for every night. */
  lemma SixteenAtCheckIn(today: Date)
    requires Valid(today) && Before(Date(2009, 6, 1), today)
    ensures TaxOnDates(June1, June5, Date(2009, 6, 1), today) == 8
  {
    StayOrdinals();
    assert Ordinal(Date(2009, 6, 1)) == 733559 by { assert DaysBeforeYear(2009) == 733407; }
    OrdinalOrder(Date(2009, 6, 1), today);
    TaxClosedForm(June1, June5, Date(2009, 6, 1), today);
  }

  /** Canonical date texts are read as the dates they spell, so the
      entry point on text agrees with the computation on dates. */
  lemma CanonicalTextAgrees(ci: Date, co: Date, b: Date, today: Date)
    requires Valid(ci) && Valid(co) && Valid(b) && Valid(today)
    ensures CalculateTouristTax(VStr(Iso(ci)), VStr(Iso(co)), VStr(Iso(b)), today)
            == Ok(TaxOnDates(ci, co, b, today))
  {
    ReadIso(ci);
    ReadIso(co);
    ReadIso(b);
  }
}

/** The proleptic Gregorian calendar of Python's `datetime.date`: civil
    dates in years 1..9999, and the day number ("ordinal") that
    `date.toordinal()` assigns them, 0001-01-01 being day 1. Date
    arithmetic in the services (`date + timedelta`, `date - date`) is
    arithmetic on these day numbers. */
module Calendar {
  import opened Base

  datatype Date = Date(year: int, month: int, day: int)

  const MinYear: int := 1
  const MaxYear: int := 9999

  /** `date.max.toordinal()`, the day number of 9999-12-31. */
  const MaxOrdinal: int := 3652059

  predicate IsLeap(y: int) {
    y % 4 == 0 && (y % 100 != 0 || y % 400 == 0)
  }

  function DaysInYear(y: int): int {
    if IsLeap(y) then 366 else 365
  }

  function DaysInMonth(y: int, m: int): int
    requires 1 <= m <= 12
  {
    if m == 2 then (if IsLeap(y) then 29 else 28)
    else if m == 4 || m == 6 || m == 9 || m == 11 then 30
    else 31
  }

  /** A date `datetime.date(year, month, day)` accepts. */
  predicate Valid(d: Date) {
    MinYear <= d.year <= MaxYear && 1 <= d.month <= 12
    && 1 <= d.day <= DaysInMonth(d.year, d.month)
  }

  /** Days in the years before `y`, counted from 0001-01-01. */
  function DaysBeforeYear(y: int): int
    requires y >= 1
  {
    var k := y - 1;
    365 * k + k / 4 - k / 100 + k / 400
  }

  /** Days in the months of year `y` before month `m` (`m == 13` gives the
      whole year). */
  function DaysBeforeMonth(y: int, m: int): int
    requires 1 <= m <= 13
  {
    var base :=
      if m == 1 then 0 else if m == 2 then 31 else if m == 3 then 59
      else if m == 4 then 90 else if m == 5 then 120 else if m == 6 then 151
      else if m == 7 then 181 else if m == 8 then 212 else if m == 9 then 243
      else if m == 10 then 273 else if m == 11 then 304 else if m == 12 then 334
      else 365;
    base + (if m > 2 && IsLeap(y) then 1 else 0)
  }

  /** `date.toordinal()`. */
  function Ordinal(d: Date): (n: int)
    requires Valid(d)
    ensures 1 <= n <= MaxOrdinal
  {
    YearBounds(d);
    DaysBeforeYearMonotone(d.year + 1, MaxYear + 1);
    DaysBeforeYear(d.year) + DaysBeforeMonth(d.year, d.month) + d.day
  }

  /** `date.fromordinal(n)`, following the 400/100/4/1-year cycle
      decomposition of CPython's `_ord2ymd`. */
  function FromOrdinal(n: int): (d: Date)
    requires 1 <= n <= MaxOrdinal
    ensures Valid(d) && Ordinal(d) == n
  {
    var p := CyclesOf(n - 1);
    var k := 400 * p.a + 100 * p.b + 4 * p.c + p.e;
    if p.e == 4 || p.b == 4 then
      YearEndOrdinal(n, p.a, p.b, p.c, p.e, p.r4);
      Date(k, 12, 31)
    else
      YearStartOrdinal(n, p.a, p.b, p.c, p.e, p.r4);
      var d := MonthDay(k + 1, p.r4 + 1);
      assert Ordinal(d) == DaysBeforeYear(k + 1) + p.r4 + 1;
      d
  }

  /** Whole 400-, 100-, 4- and 1-year cycles before a day, and the day's
      offset in its year. */
  datatype Cycles = Cycles(a: int, b: int, c: int, e: int, r4: int)

  /** The successive `divmod`s of `_ord2ymd` applied to `m` days. */
  function CyclesOf(m: int): (p: Cycles)
    requires 0 <= m < MaxOrdinal
    ensures p.a >= 0 && 0 <= p.b <= 4 && 0 <= p.c <= 24 && 0 <= p.e <= 4 && 0 <= p.r4 < 365
    ensures m == 146097 * p.a + 36524 * p.b + 1461 * p.c + 365 * p.e + p.r4
    ensures p.b == 4 ==> p.c == 0 && p.e == 0 && p.r4 == 0
    ensures p.e == 4 ==> p.c <= 23 && p.r4 == 0
  {
    var a, r1 := m / 146097, m % 146097;
    var b, r2 := r1 / 36524, r1 % 36524;
    var c, r3 := r2 / 1461, r2 % 1461;
    var e, r4 := r3 / 365, r3 % 365;
    Cycles(a, b, c, e, r4)
  }

  /** The last day of a cycle, where `_ord2ymd` answers December 31. */
  lemma YearEndOrdinal(n: int, a: int, b: int, c: int, e: int, r4: int)
    requires 1 <= n <= MaxOrdinal
    requires a >= 0 && 0 <= b <= 4 && 0 <= c <= 24 && 0 <= e <= 4
    requires n - 1 == 146097 * a + 36524 * b + 1461 * c + 365 * e + r4
    requires e == 4 || b == 4
    requires b == 4 ==> c == 0 && e == 0
    requires e == 4 ==> c <= 23
    requires r4 == 0
    ensures var k := 400 * a + 100 * b + 4 * c + e;
            Valid(Date(k, 12, 31)) && Ordinal(Date(k, 12, 31)) == n
  {
    var k := 400 * a + 100 * b + 4 * c + e;
    CycleEnd(a, b, c, e);
    if k > MaxYear { DaysBeforeYearMonotone(MaxYear + 1, k); }
  }

  /** Any other day: day `r4 + 1` of year `k + 1`. */
  lemma YearStartOrdinal(n: int, a: int, b: int, c: int, e: int, r4: int)
    requires 1 <= n <= MaxOrdinal
    requires a >= 0 && 0 <= b <= 3 && 0 <= c <= 24 && 0 <= e <= 3 && 0 <= r4 < 365
    requires n - 1 == 146097 * a + 36524 * b + 1461 * c + 365 * e + r4
    ensures var y := 400 * a + 100 * b + 4 * c + e + 1;
            MinYear <= y <= MaxYear && r4 + 1 <= DaysInYear(y) && DaysBeforeYear(y) + r4 + 1 == n
  {
    var y := 400 * a + 100 * b + 4 * c + e + 1;
    CycleStart(a, b, c, e);
    if y > MaxYear { DaysBeforeYearMonotone(MaxYear + 1, y); }
  }

  /** The date with day-of-year `doy` in year `y`. */
  function MonthDay(y: int, doy: int): (d: Date)
    requires MinYear <= y <= MaxYear && 1 <= doy <= DaysInYear(y)
    ensures Valid(d) && d.year == y && DaysBeforeMonth(y, d.month) + d.day == doy
  {
    var m :=
      if doy <= DaysBeforeMonth(y, 2) then 1 else if doy <= DaysBeforeMonth(y, 3) then 2
      else if doy <= DaysBeforeMonth(y, 4) then 3 else if doy <= DaysBeforeMonth(y, 5) then 4
      else if doy <= DaysBeforeMonth(y, 6) then 5 else if doy <= DaysBeforeMonth(y, 7) then 6
      else if doy <= DaysBeforeMonth(y, 8) then 7 else if doy <= DaysBeforeMonth(y, 9) then 8
      else if doy <= DaysBeforeMonth(y, 10) then 9 else if doy <= DaysBeforeMonth(y, 11) then 10
      else if doy <= DaysBeforeMonth(y, 12) then 11 else 12;
    Date(y, m, doy - DaysBeforeMonth(y, m))
  }

  // ---------------------------------------------------------------------
  // Arithmetic facts behind the cycle decomposition

  lemma CycleStart(a: int, b: int, c: int, e: int)
    requires a >= 0 && 0 <= b <= 3 && 0 <= c <= 24 && 0 <= e <= 3
    ensures DaysBeforeYear(400 * a + 100 * b + 4 * c + e + 1)
            == 146097 * a + 36524 * b + 1461 * c + 365 * e
  {
    var k := 400 * a + 100 * b + 4 * c + e;
    assert k == 4 * (100 * a + 25 * b + c) + e;
    assert k / 4 == 100 * a + 25 * b + c;
    assert k == 100 * (4 * a + b) + (4 * c + e);
    assert k / 100 == 4 * a + b;
    assert k == 400 * a + (100 * b + 4 * c + e);
    assert k / 400 == a;
  }

  lemma CycleEnd(a: int, b: int, c: int, e: int)
    requires a >= 0 && 0 <= b <= 4 && 0 <= c <= 24 && 0 <= e <= 4
    requires e == 4 || b == 4
    requires b == 4 ==> c == 0 && e == 0
    requires e == 4 ==> c <= 23
    ensures var k := 400 * a + 100 * b + 4 * c + e;
            k >= 1 && IsLeap(k)
            && DaysBeforeYear(k) + 365 == 146097 * a + 36524 * b + 1461 * c + 365 * e
  {
    if b == 4 {
      CycleEndCentury(a);
    } else {
      CycleEndQuad(a, b, c);
    }
  }

  /** The last year of a 400-year cycle. */
  lemma CycleEndCentury(a: int)
    requires a >= 0
    ensures var k := 400 * a + 400;
            IsLeap(k) && DaysBeforeYear(k) + 365 == 146097 * a + 36524 * 4
  {
    var k := 400 * a + 400;
    var j := k - 1;
    DivModOf(j, 4, 100 * a + 99, 3);
    DivModOf(j, 100, 4 * a + 3, 99);
    DivModOf(j, 400, a, 399);
    DivModOf(k, 4, 100 * a + 100, 0);
    DivModOf(k, 400, a + 1, 0);
    assert DaysBeforeYear(k) == 365 * j + (100 * a + 99) - (4 * a + 3) + a;
  }

  /** Quotient and remainder by 4, 100 and 400, from one decomposition. */
  lemma DivModOf(x: int, d: int, q: int, r: int)
    requires d == 4 || d == 100 || d == 400
    requires 0 <= r < d && x == d * q + r
    ensures x / d == q && x % d == r
  {
    if d == 4 {
      assert x == 4 * q + r;
    } else if d == 100 {
      assert x == 100 * q + r;
    } else {
      assert x == 400 * q + r;
    }
  }

  /** The last year of a 4-year cycle that does not end a 400-year one. */
  lemma CycleEndQuad(a: int, b: int, c: int)
    requires a >= 0 && 0 <= b <= 3 && 0 <= c <= 23
    ensures var k := 400 * a + 100 * b + 4 * c + 4;
            IsLeap(k) && DaysBeforeYear(k) + 365 == 146097 * a + 36524 * b + 1461 * c + 365 * 4
  {
    var k := 400 * a + 100 * b + 4 * c + 4;
    var j := k - 1;
    DivModOf(j, 4, 100 * a + 25 * b + c, 3);
    DivModOf(j, 100, 4 * a + b, 4 * c + 3);
    DivModOf(j, 400, a, 100 * b + 4 * c + 3);
    DivModOf(k, 4, 100 * a + 25 * b + c + 1, 0);
    DivModOf(k, 100, 4 * a + b, 4 * c + 4);
    assert DaysBeforeYear(k) == 365 * j + (100 * a + 25 * b + c) - (4 * a + b) + a;
  }

  /** One more year adds that year's length. */
  lemma DaysBeforeYearStep(y: int)
    requires y >= 1
    ensures DaysBeforeYear(y + 1) == DaysBeforeYear(y) + DaysInYear(y)
  {
    var k := y - 1;
    var q, r := k / 400, k % 400;
    assert k == 400 * q + r;
    assert y == 400 * q + (r + 1);
    var q1, r1 := r / 100, r % 100;
    var q2, r2 := r1 / 4, r1 % 4;
    assert k / 4 == 100 * q + 25 * q1 + q2;
    assert k / 100 == 4 * q + q1;
    if r2 < 3 {
      assert y % 4 != 0;
      assert (k + 1) / 4 == k / 4;
      assert (k + 1) / 100 == k / 100;
      assert (k + 1) / 400 == k / 400;
    } else if r1 < 99 {
      assert (k + 1) / 4 == k / 4 + 1;
      assert (k + 1) / 100 == k / 100;
      assert (k + 1) / 400 == k / 400;
      assert y % 4 == 0 && y % 100 != 0;
    } else if r < 399 {
      assert (k + 1) / 4 == k / 4 + 1;
      assert (k + 1) / 100 == k / 100 + 1;
      assert (k + 1) / 400 == k / 400;
      assert y % 100 == 0 && y % 400 != 0;
    } else {
      assert (k + 1) / 4 == k / 4 + 1;
      assert (k + 1) / 100 == k / 100 + 1;
      assert (k + 1) / 400 == k / 400 + 1;
      assert y % 400 == 0;
    }
  }

  lemma {:induction false} DaysBeforeYearMonotone(y1: int, y2: int)
    requires 1 <= y1 <= y2
    ensures DaysBeforeYear(y1) + 365 * (y2 - y1) <= DaysBeforeYear(y2)
    ensures DaysBeforeYear(y2) <= DaysBeforeYear(y1) + 366 * (y2 - y1)
    decreases y2 - y1
  {
    if y1 < y2 {
      DaysBeforeYearStep(y1);
      DaysBeforeYearMonotone(y1 + 1, y2);
    }
  }

  /** A date's day number lies within its year's span of day numbers. */
  lemma YearBounds(d: Date)
    requires Valid(d)
    ensures DaysBeforeYear(d.year) < DaysBeforeYear(d.year) + DaysBeforeMonth(d.year, d.month) + d.day
            <= DaysBeforeYear(d.year + 1)
  {
    DaysBeforeYearStep(d.year);
  }

  /** Distinct valid dates have distinct day numbers. */
  lemma OrdinalInjective(d1: Date, d2: Date)
    requires Valid(d1) && Valid(d2) && Ordinal(d1) == Ordinal(d2)
    ensures d1 == d2
  {
    OrdinalOrder(d1, d2);
    OrdinalOrder(d2, d1);
  }

  /** `date.fromordinal(d.toordinal()) == d`. */
  lemma FromOrdinalOfOrdinal(d: Date)
    requires Valid(d)
    ensures FromOrdinal(Ordinal(d)) == d
  {
    OrdinalInjective(FromOrdinal(Ordinal(d)), d);
  }

  /** Day numbers order dates chronologically (year, then month, then day). */
  lemma OrdinalOrder(d1: Date, d2: Date)
    requires Valid(d1) && Valid(d2)
    ensures Ordinal(d1) < Ordinal(d2) <==> Before(d1, d2)
  {
    YearBounds(d1);
    YearBounds(d2);
    if d1.year < d2.year {
      DaysBeforeYearMonotone(d1.year + 1, d2.year);
    } else if d2.year < d1.year {
      DaysBeforeYearMonotone(d2.year + 1, d1.year);
    } else {
      DayOfYearOrder(d1, d2);
    }
  }

  /** Within a year, the day of the year orders dates by month, then day. */
  lemma DayOfYearOrder(d1: Date, d2: Date)
    requires Valid(d1) && Valid(d2) && d1.year == d2.year
    ensures DaysBeforeMonth(d1.year, d1.month) + d1.day < DaysBeforeMonth(d2.year, d2.month) + d2.day
            <==> d1.month < d2.month || (d1.month == d2.month && d1.day < d2.day)
  {
    MonthSpan(d1);
    MonthSpan(d2);
    if d1.month < d2.month {
      MonthsIncrease(d1.year, d1.month + 1, d2.month);
    } else if d2.month < d1.month {
      MonthsIncrease(d1.year, d2.month + 1, d1.month);
    }
  }

  /** A date's day of the year lies within its month's span. */
  lemma MonthSpan(d: Date)
    requires Valid(d)
    ensures DaysBeforeMonth(d.year, d.month) + d.day <= DaysBeforeMonth(d.year, d.month + 1)
  {
  }

  /** Later months start later in the year. */
  lemma MonthsIncrease(y: int, m1: int, m2: int)
    requires 1 <= m1 <= m2 <= 13
    ensures DaysBeforeMonth(y, m1) <= DaysBeforeMonth(y, m2)
  {
  }

  /** Chronological order on civil dates. */
  predicate Before(d1: Date, d2: Date) {
    d1.year < d2.year
    || (d1.year == d2.year && d1.month < d2.month)
    || (d1.year == d2.year && d1.month == d2.month && d1.day < d2.day)
  }

  /** `date + timedelta(days=n)`: `None` where Python raises OverflowError. */
  function AddDays(d: Date, n: int): (r: Option<Date>)
    requires Valid(d)
    ensures r.Some? <==> 1 <= Ordinal(d) + n <= MaxOrdinal
    ensures r.Some? ==> Valid(r.value) && Ordinal(r.value) == Ordinal(d) + n
  {
    var k := Ordinal(d) + n;
    if 1 <= k <= MaxOrdinal then Some(FromOrdinal(k)) else None
  }
}

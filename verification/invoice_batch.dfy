/** The loop of `InvoiceService.generate_all_invoices`: the reservations
    are put in booking order (those whose `reservation_date` parses, oldest
    first, then the others as they came), and each one is skipped, written
    or counted as an error. The sheets behind the loop are parameters: the
    SEF forms and the existing invoice rows are given, and the outcome of
    appending a reservation's rows is the predicate `appended`. */
module InvoiceBatch {
  import opened Base
  import opened Calendar
  import opened InvoiceDates
  import opened StateManager
  import opened Invoice

  // ---------------------------------------------------------------------
  // Booking order

  /** `get_reservation_date(res)`: the parsed `reservation_date`, if any. */
  function BookingDate(res: Row): Option<Date> {
    ParseReservationDate(Raw(res, "reservation_date"))
  }

  predicate Dated(res: Row) {
    BookingDate(res).Some?
  }

  /** An entry of `reservations_with_dates`: the booking day number and
      the reservation. */
  datatype Keyed = Keyed(day: int, res: Row)

  /** `reservations_with_dates`, in input order: one entry per dated
      reservation, keyed by its booking day. */
  function WithDates(rs: seq<Row>): (r: seq<Keyed>)
    ensures |r| <= |rs|
  {
    if rs == [] then []
    else
      var rest := WithDates(rs[1..]);
      match BookingDate(rs[0])
      case Some(d) => [Keyed(Ordinal(d), rs[0])] + rest
      case None => rest
  }

  /** `reservations_without_dates`, in input order. */
  function WithoutDates(rs: seq<Row>): (r: seq<Row>)
    ensures |r| <= |rs|
  {
    if rs == [] then []
    else (if Dated(rs[0]) then [] else [rs[0]]) + WithoutDates(rs[1..])
  }

  /** Each entry of `reservations_with_dates` holds a dated reservation
      and its day number. */
  lemma {:induction false} WithDatesAt(rs: seq<Row>, e: Keyed)
    requires e in WithDates(rs)
    ensures Dated(e.res) && e.day == Ordinal(BookingDate(e.res).value)
  {
    if rs != [] {
      var rest := WithDates(rs[1..]);
      if e in rest {
        WithDatesAt(rs[1..], e);
      }
    }
  }

  /** Both lists keep the input order: the list of a concatenation is the
      concatenation of the lists. */
  lemma {:induction false} WithDatesAppend(a: seq<Row>, b: seq<Row>)
    ensures WithDates(a + b) == WithDates(a) + WithDates(b)
  {
    if a == [] {
      assert a + b == b;
    } else {
      var x, tail := a[0], a[1..];
      assert a == [x] + tail;
      assert a + b == [x] + (tail + b);
      WithDatesCons(x, tail);
      WithDatesCons(x, tail + b);
      WithDatesAppend(tail, b);
      var head := if Dated(x) then [Keyed(Ordinal(BookingDate(x).value), x)] else [];
      AppendAssoc3(head, WithDates(tail), WithDates(b));
    }
  }

  lemma WithDatesCons(x: Row, rest: seq<Row>)
    ensures WithDates([x] + rest)
            == (if Dated(x) then [Keyed(Ordinal(BookingDate(x).value), x)] else []) + WithDates(rest)
  {
    assert ([x] + rest)[0] == x;
    assert ([x] + rest)[1..] == rest;
  }

  lemma {:induction false} WithoutDatesAppend(a: seq<Row>, b: seq<Row>)
    ensures WithoutDates(a + b) == WithoutDates(a) + WithoutDates(b)
  {
    if a == [] {
      assert a + b == b;
    } else {
      var head := if Dated(a[0]) then [] else [a[0]];
      assert (a + b)[0] == a[0];
      assert (a + b)[1..] == a[1..] + b;
      assert WithoutDates(a + b) == head + WithoutDates(a[1..] + b);
      WithoutDatesAppend(a[1..], b);
      AppendAssoc3(head, WithoutDates(a[1..]), WithoutDates(b));
    }
  }

  /** `reservations_without_dates` holds no dated reservation. */
  lemma {:induction false} WithoutDatesAt(rs: seq<Row>, x: Row)
    requires x in WithoutDates(rs)
    ensures !Dated(x)
  {
    if rs != [] && x in WithoutDates(rs[1..]) {
      WithoutDatesAt(rs[1..], x);
    }
  }

  /** The reservations of the entries, in order. */
  function Reservations(s: seq<Keyed>): (r: seq<Row>)
    ensures |r| == |s|
  {
    if s == [] then [] else [s[0].res] + Reservations(s[1..])
  }

  lemma {:induction false} ReservationAt(s: seq<Keyed>, j: nat)
    requires j < |s|
    ensures Reservations(s)[j] == s[j].res
  {
    if j > 0 {
      ReservationAt(s[1..], j - 1);
    }
  }

  lemma ConsReservations(x: Keyed, s: seq<Keyed>)
    ensures multiset(Reservations([x] + s)) == multiset{x.res} + multiset(Reservations(s))
  {
    assert ([x] + s)[1..] == s;
  }

  /** Every reservation lands in exactly one of the two lists. */
  lemma {:induction false} SplitKeepsAll(rs: seq<Row>)
    ensures multiset(Reservations(WithDates(rs))) + multiset(WithoutDates(rs)) == multiset(rs)
  {
    if rs != [] {
      var x := rs[0];
      SplitKeepsAll(rs[1..]);
      assert multiset(rs) == multiset{x} + multiset(rs[1..]) by { assert rs == [x] + rs[1..]; }
      if Dated(x) {
        var e := Keyed(Ordinal(BookingDate(x).value), x);
        assert WithDates(rs) == [e] + WithDates(rs[1..]);
        ConsReservations(e, WithDates(rs[1..]));
        assert WithoutDates(rs) == WithoutDates(rs[1..]);
      } else {
        assert WithDates(rs) == WithDates(rs[1..]);
        assert WithoutDates(rs) == [x] + WithoutDates(rs[1..]);
      }
    }
  }

  /** Booking days never decrease along the list. */
  predicate ByDay(s: seq<Keyed>) {
    forall i, j :: 0 <= i < j < |s| ==> s[i].day <= s[j].day
  }

  /** `e` placed after every entry booked on or before its day. */
  function InsertByDay(e: Keyed, s: seq<Keyed>): (r: seq<Keyed>)
    ensures multiset(r) == multiset(s) + multiset{e}
  {
    if s == [] then [e]
    else if e.day < s[0].day then [e] + s
    else
      assert s == [s[0]] + s[1..];
      [s[0]] + InsertByDay(e, s[1..])
  }

  /** Inserting into a list sorted by day keeps it sorted. */
  lemma {:induction false} InsertSorted(e: Keyed, s: seq<Keyed>)
    requires ByDay(s)
    ensures ByDay(InsertByDay(e, s))
  {
    if s != [] && e.day >= s[0].day {
      InsertSorted(e, s[1..]);
      var rest := InsertByDay(e, s[1..]);
      forall y | y in rest ensures s[0].day <= y.day {
        assert y in multiset(rest);
      }
    }
  }

  /** `reservations_with_dates.sort(key=lambda x: x[0])`: an insertion
      sort, which like Python's sort is stable. */
  function SortByDay(s: seq<Keyed>): (r: seq<Keyed>)
    ensures ByDay(r)
    ensures multiset(r) == multiset(s)
  {
    if s == [] then []
    else
      assert s == s[..|s| - 1] + [s[|s| - 1]];
      InsertSorted(s[|s| - 1], SortByDay(s[..|s| - 1]));
      InsertByDay(s[|s| - 1], SortByDay(s[..|s| - 1]))
  }

  /** The entries booked on day `k`, in their order. */
  function OnDay(s: seq<Keyed>, k: int): seq<Keyed> {
    if s == [] then []
    else (if s[0].day == k then [s[0]] else []) + OnDay(s[1..], k)
  }

  lemma {:induction false} OnDayAppend(a: seq<Keyed>, b: seq<Keyed>, k: int)
    ensures OnDay(a + b, k) == OnDay(a, k) + OnDay(b, k)
  {
    if a == [] {
      assert a + b == b;
    } else {
      var head := if a[0].day == k then [a[0]] else [];
      assert (a + b)[0] == a[0];
      assert (a + b)[1..] == a[1..] + b;
      assert OnDay(a + b, k) == head + OnDay(a[1..] + b, k);
      OnDayAppend(a[1..], b, k);
      assert OnDay(a, k) == head + OnDay(a[1..], k);
      AppendAssoc3(head, OnDay(a[1..], k), OnDay(b, k));
    }
  }

  lemma AppendAssoc3<T>(x: seq<T>, y: seq<T>, z: seq<T>)
    ensures x + (y + z) == (x + y) + z
  {
  }

  lemma {:induction false} OnDayNone(s: seq<Keyed>, k: int)
    requires forall j :: 0 <= j < |s| ==> s[j].day != k
    ensures OnDay(s, k) == []
  {
    if s != [] {
      OnDayNone(s[1..], k);
    }
  }

  lemma OnDayOne(e: Keyed, k: int)
    ensures OnDay([e], k) == (if e.day == k then [e] else [])
  {
    assert OnDay([e], k) == (if e.day == k then [e] else []) + OnDay([], k);
  }

  /** Inserting an entry adds it at the end of the entries of its day. */
  lemma {:induction false} InsertOnDay(e: Keyed, s: seq<Keyed>, k: int)
    requires ByDay(s)
    ensures OnDay(InsertByDay(e, s), k) == OnDay(s, k) + (if e.day == k then [e] else [])
  {
    OnDayOne(e, k);
    if s == [] {
    } else if e.day < s[0].day {
      OnDayAppend([e], s, k);
      if e.day == k {
        OnDayNone(s, k);
      }
    } else {
      var tail := if e.day == k then [e] else [];
      assert InsertByDay(e, s) == [s[0]] + InsertByDay(e, s[1..]);
      InsertOnDay(e, s[1..], k);
      OnDayAppend([s[0]], InsertByDay(e, s[1..]), k);
      OnDayAppend([s[0]], s[1..], k);
      assert [s[0]] + s[1..] == s;
      AppendAssoc3(OnDay([s[0]], k), OnDay(s[1..], k), tail);
    }
  }

  /** The entries of a day are those of all but the last entry, then the
      last one if it is of that day. */
  lemma LastOnDay(s: seq<Keyed>, k: int)
    requires s != []
    ensures OnDay(s, k) == OnDay(s[..|s| - 1], k) + (if s[|s| - 1].day == k then [s[|s| - 1]] else [])
  {
    var init, last := s[..|s| - 1], s[|s| - 1];
    assert s == init + [last];
    OnDayAppend(init, [last], k);
    OnDayOne(last, k);
  }

  /** The sort is stable: entries booked on the same day keep their order. */
  lemma {:induction false} SortIsStable(s: seq<Keyed>, k: int)
    ensures OnDay(SortByDay(s), k) == OnDay(s, k)
  {
    if s != [] {
      var init, last := s[..|s| - 1], s[|s| - 1];
      var sortedInit := SortByDay(init);
      assert SortByDay(s) == InsertByDay(last, sortedInit);
      SortIsStable(init, k);
      InsertOnDay(last, sortedInit, k);
      LastOnDay(s, k);
    }
  }

  /** The order the loop visits the reservations in: the dated ones by
      booking day, then the undated ones as they came. */
  function BatchOrder(rs: seq<Row>): seq<Row> {
    Reservations(SortByDay(WithDates(rs))) + WithoutDates(rs)
  }

  /** The visiting order in full: a permutation of the input whose dated
      head is sorted by booking day (same-day bookings in input order) and
      whose tail is the undated reservations in input order. */
  lemma BatchOrderShape(rs: seq<Row>, k: int)
    ensures multiset(BatchOrder(rs)) == multiset(rs)
    ensures var sorted := SortByDay(WithDates(rs));
            var n := |sorted|;
            n <= |BatchOrder(rs)|
            && BatchOrder(rs)[..n] == Reservations(sorted)
            && BatchOrder(rs)[n..] == WithoutDates(rs)
            && (forall j :: 0 <= j < n ==>
                  Dated(BatchOrder(rs)[j]) && sorted[j].day == Ordinal(BookingDate(BatchOrder(rs)[j]).value))
            && (forall i, j :: 0 <= i < j < n ==> sorted[i].day <= sorted[j].day)
            && OnDay(sorted, k) == OnDay(WithDates(rs), k)
  {
    var d := WithDates(rs);
    var sorted := SortByDay(d);
    var r := BatchOrder(rs);
    SplitKeepsAll(rs);
    assert multiset(Reservations(sorted)) == multiset(Reservations(d)) by { SortKeepsReservations(d); }
    assert |sorted| == |d| by { assert |multiset(sorted)| == |multiset(d)|; }
    assert r[..|sorted|] == Reservations(sorted);
    forall j | 0 <= j < |sorted|
      ensures Dated(r[j]) && sorted[j].day == Ordinal(BookingDate(r[j]).value)
    {
      assert sorted[j] in multiset(d);
      WithDatesAt(rs, sorted[j]);
      ReservationAt(sorted, j);
    }
    SortIsStable(d, k);
  }

  /** Inserting an entry adds its reservation. */
  lemma {:induction false} InsertKeepsReservations(e: Keyed, s: seq<Keyed>)
    ensures multiset(Reservations(InsertByDay(e, s))) == multiset(Reservations(s)) + multiset{e.res}
  {
    if s == [] {
      assert InsertByDay(e, s) == [e] + [];
      ConsReservations(e, []);
    } else if e.day < s[0].day {
      assert InsertByDay(e, s) == [e] + s;
      ConsReservations(e, s);
    } else {
      var rest := InsertByDay(e, s[1..]);
      assert InsertByDay(e, s) == [s[0]] + rest;
      InsertKeepsReservations(e, s[1..]);
      ConsStep(s[0], rest, s[1..], e.res);
      assert [s[0]] + s[1..] == s;
    }
  }

  /** Putting the same entry in front of two lists keeps a difference of
      one reservation between them. */
  lemma ConsStep(x: Keyed, longer: seq<Keyed>, shorter: seq<Keyed>, r: Row)
    requires multiset(Reservations(longer)) == multiset(Reservations(shorter)) + multiset{r}
    ensures multiset(Reservations([x] + longer)) == multiset(Reservations([x] + shorter)) + multiset{r}
  {
    ConsReservations(x, longer);
    ConsReservations(x, shorter);
  }

  /** Sorting the entries permutes their reservations. */
  lemma {:induction false} SortKeepsReservations(s: seq<Keyed>)
    ensures multiset(Reservations(SortByDay(s))) == multiset(Reservations(s))
  {
    if s != [] {
      var init, last := s[..|s| - 1], s[|s| - 1];
      var sortedInit := SortByDay(init);
      assert SortByDay(s) == InsertByDay(last, sortedInit);
      SortKeepsReservations(init);
      InsertKeepsReservations(last, sortedInit);
      LastReservation(s);
    }
  }

  /** The reservations of a list are those of all but its last entry,
      plus the last entry's. */
  lemma LastReservation(s: seq<Keyed>)
    requires s != []
    ensures multiset(Reservations(s)) == multiset(Reservations(s[..|s| - 1])) + multiset{s[|s| - 1].res}
  {
    var init, last := s[..|s| - 1], s[|s| - 1];
    assert s == init + [last];
    ReservationsAppend(init, [last]);
    assert Reservations([last]) == [last.res];
  }

  lemma {:induction false} ReservationsAppend(a: seq<Keyed>, b: seq<Keyed>)
    ensures Reservations(a + b) == Reservations(a) + Reservations(b)
  {
    if a == [] {
      assert a + b == b;
    } else {
      assert (a + b)[1..] == a[1..] + b;
      ReservationsAppend(a[1..], b);
    }
  }

  // ---------------------------------------------------------------------
  // One reservation

  /** The invoice rows a reservation already has: those whose trimmed
      `reservation_id` is its id. */
  function ExistingLines(invoices: seq<Row>, id: string): (n: nat)
    ensures n <= |invoices|
    ensures n == 0 <==> forall i :: 0 <= i < |invoices| ==> Cell(invoices[i], "reservation_id") != id
  {
    if invoices == [] then 0
    else (if Cell(invoices[0], "reservation_id") == id then 1 else 0) + ExistingLines(invoices[1..], id)
  }

  /** The lines a reservation should have: 1 for Airbnb, 3 otherwise. */
  function ExpectedLines(res: Row): (n: nat)
    ensures n == 1 <==> IsAirbnb(res)
    ensures n == 3 <==> !IsAirbnb(res)
  {
    if IsAirbnb(res) then 1 else 3
  }

  /** The SEF forms of the reservation's stay; none when either of its
      dates does not parse. */
  function StayForms(forms: seq<Row>, res: Row): seq<Row> {
    if CheckIn(res).Some? && CheckOut(res).Some? then MatchingForms(forms, CheckIn(res).value, CheckOut(res).value)
    else []
  }

  /** What the run knows besides the ledger: the similarity and rounding
      functions, the SEF forms, the invoice rows found at the start, the
      dry-run switch, and whether the sheet accepts a reservation's rows. */
  datatype Context = Context(
    ratio: (string, string) -> real,
    rnd: real -> real,
    forms: seq<Row>,
    invoices: seq<Row>,
    debug: bool,
    appended: string -> bool)

  /** What the loop does with one reservation. */
  datatype Step =
    | NoId                               // no `reservation_id`: passed over, not counted
    | InLedger                           // already in the invoice ledger: skipped
    | Complete                           // enough lines in the sheet: skipped (and recorded)
    | Failed                             // an exception, no lines, or a failed write
    | Written(lines: seq<InvoiceLine>)   // rows appended and the id recorded
    | Previewed(lines: seq<InvoiceLine>) // dry run: kept for the preview

  function Classify(ctx: Context, st: InvoiceState, res: Row): (s: Step)
    ensures Cell(res, "reservation_id") == "" <==> s.NoId?
    ensures s.InLedger? ==> !ctx.debug
    ensures s.Written? ==> !ctx.debug && !InvoiceAlreadyImported(st, Cell(res, "reservation_id"))
    ensures s.Previewed? ==> ctx.debug
    ensures (s.Written? || s.Previewed?) ==> ExistingLines(ctx.invoices, Cell(res, "reservation_id")) < ExpectedLines(res)
    ensures var id := Cell(res, "reservation_id");
            !ctx.debug && id != "" && InvoiceAlreadyImported(st, id) ==> s.InLedger?
    ensures var id := Cell(res, "reservation_id");
            id != "" && (ctx.debug || !InvoiceAlreadyImported(st, id))
            && ExistingLines(ctx.invoices, id) >= ExpectedLines(res)
            ==> s.Complete?
    ensures var id := Cell(res, "reservation_id");
            var gen := GenerateInvoiceLines(ctx.ratio, ctx.rnd, res, StayForms(ctx.forms, res));
            id != "" && (ctx.debug || !InvoiceAlreadyImported(st, id))
            && ExistingLines(ctx.invoices, id) < ExpectedLines(res) && gen.Ok?
            ==> (ctx.debug ==> s == Previewed(gen.value))
                && (!ctx.debug ==> (s == Written(gen.value) <==> ctx.appended(id)))
                && (!ctx.debug && !ctx.appended(id) ==> s.Failed?)
    ensures var id := Cell(res, "reservation_id");
            id != "" && (ctx.debug || !InvoiceAlreadyImported(st, id))
            && ExistingLines(ctx.invoices, id) < ExpectedLines(res)
            && GenerateInvoiceLines(ctx.ratio, ctx.rnd, res, StayForms(ctx.forms, res)).Err?
            ==> s.Failed?
  {
    var id := Cell(res, "reservation_id");
    if id == "" then NoId
    else if !ctx.debug && InvoiceAlreadyImported(st, id) then InLedger
    else if ExistingLines(ctx.invoices, id) >= ExpectedLines(res) then Complete
    else
      match GenerateInvoiceLines(ctx.ratio, ctx.rnd, res, StayForms(ctx.forms, res))
      case Err(_) => Failed
      case Ok(lines) =>
        GeneratedWriteFollowsAppend(ctx.ratio, ctx.rnd, res, StayForms(ctx.forms, res), ctx.appended(id));
        LineCount(ctx.ratio, ctx.rnd, res, StayForms(ctx.forms, res));
        if lines == [] then Failed
        else if ctx.debug then Previewed(lines)
        else if WriteInvoiceLines(res, lines, false, ctx.appended(id)) then Written(lines)
        else Failed
  }

  /** The counters and ledger of the run, the ids written in order and the
      dry-run preview. */
  datatype Tally = Tally(
    ledger: InvoiceState,
    generated: nat,
    skipped: nat,
    errors: nat,
    written: seq<string>,
    preview: seq<seq<InvoiceLine>>)

  /** One reservation's effect on the tally. */
  function Apply(ctx: Context, t: Tally, res: Row): (r: Tally)
    ensures r.generated + r.skipped + r.errors <= t.generated + t.skipped + t.errors + 1
    ensures r.written == t.written || r.written == t.written + [Cell(res, "reservation_id")]
    ensures r.generated == t.generated + |r.written| - |t.written|
    ensures r.ledger == t.ledger
            || (!ctx.debug && Cell(res, "reservation_id") != ""
                && r.ledger == MarkInvoiceImported(t.ledger, Cell(res, "reservation_id")).0)
    ensures r.written != t.written ==>
              !InvoiceAlreadyImported(t.ledger, Cell(res, "reservation_id"))
              && r.ledger == MarkInvoiceImported(t.ledger, Cell(res, "reservation_id")).0
    ensures r.written != t.written <==> Classify(ctx, t.ledger, res).Written?
    ensures Classify(ctx, t.ledger, res).Failed? ==> r.errors == t.errors + 1
    ensures Classify(ctx, t.ledger, res).InLedger? || Classify(ctx, t.ledger, res).Complete?
            ==> r.skipped == t.skipped + 1
  {
    var id := Cell(res, "reservation_id");
    match Classify(ctx, t.ledger, res)
    case NoId => t
    case InLedger => t.(skipped := t.skipped + 1)
    case Complete =>
      t.(skipped := t.skipped + 1,
         ledger := if ctx.debug then t.ledger else MarkInvoiceImported(t.ledger, id).0)
    case Failed => t.(errors := t.errors + 1)
    case Written(_) =>
      t.(generated := t.generated + 1, written := t.written + [id],
         ledger := MarkInvoiceImported(t.ledger, id).0)
    case Previewed(lines) => t.(preview := t.preview + [lines])
  }

  /** The loop over the reservations in the order given. */
  function Run(ctx: Context, t: Tally, rs: seq<Row>): (r: Tally)
    ensures r.generated + r.skipped + r.errors <= t.generated + t.skipped + t.errors + |rs|
    ensures t.written <= r.written
    ensures r.generated == t.generated + |r.written| - |t.written|
    decreases |rs|
  {
    if rs == [] then t
    else
      var t' := Apply(ctx, t, rs[0]);
      var r := Run(ctx, t', rs[1..]);
      assert t.written <= t'.written;
      r
  }

  /** `generate_all_invoices`: the run over the reservations in booking
      order, starting from the ledger `st`; it succeeds when something was
      generated or there was nothing to do. */
  function GenerateAllInvoices(ctx: Context, st: InvoiceState, reservations: seq<Row>): (r: (bool, Tally))
    ensures r.0 <==> r.1.generated > 0 || reservations == []
    ensures r.1 == Run(ctx, Tally(st, 0, 0, 0, [], []), BatchOrder(reservations))
  {
    var t := Run(ctx, Tally(st, 0, 0, 0, [], []), BatchOrder(reservations));
    (t.generated > 0 || reservations == [], t)
  }

  // ---------------------------------------------------------------------
  // At most once

  /** The trimmed id is its own trim, so the ledger records exactly it. */
  lemma MarkRecordsId(st: InvoiceState, res: Row, q: string)
    requires Cell(res, "reservation_id") != ""
    ensures InvoiceAlreadyImported(MarkInvoiceImported(st, Cell(res, "reservation_id")).0, q)
            <==> InvoiceAlreadyImported(st, q) || Strip(q) == Cell(res, "reservation_id")
  {
    var id := Cell(res, "reservation_id");
    StripOfStripped(id);
  }

  /** A step never forgets an id, and in a dry run records nothing. */
  lemma {:induction false} ApplyGrowsLedger(ctx: Context, t: Tally, res: Row, q: string)
    ensures InvoiceAlreadyImported(t.ledger, q) ==> InvoiceAlreadyImported(Apply(ctx, t, res).ledger, q)
    ensures ctx.debug ==> Apply(ctx, t, res).ledger == t.ledger
  {
    var r := Apply(ctx, t, res);
    if r.ledger != t.ledger {
      MarkRecordsId(t.ledger, res, q);
    }
  }

  /** A step that writes writes an id the ledger did not hold, and
      records it. */
  lemma ApplyWrites(ctx: Context, t: Tally, res: Row)
    ensures var id := Cell(res, "reservation_id");
            Apply(ctx, t, res).written != t.written ==>
              !InvoiceAlreadyImported(t.ledger, id) && InvoiceAlreadyImported(Apply(ctx, t, res).ledger, id)
  {
    var id := Cell(res, "reservation_id");
    var r := Apply(ctx, t, res);
    if r.written != t.written {
      assert id != "" by { assert r.written == t.written + [id]; }
      MarkRecordsId(t.ledger, res, id);
      StripOfStripped(id);
    }
  }

  /** Over a run the ledger only grows. */
  lemma {:induction false} RunGrowsLedger(ctx: Context, t: Tally, rs: seq<Row>, q: string)
    requires InvoiceAlreadyImported(t.ledger, q)
    ensures InvoiceAlreadyImported(Run(ctx, t, rs).ledger, q)
    decreases |rs|
  {
    if rs != [] {
      ApplyGrowsLedger(ctx, t, rs[0], q);
      RunGrowsLedger(ctx, Apply(ctx, t, rs[0]), rs[1..], q);
    }
  }

  /** A run is its first step followed by the run over the rest. */
  lemma RunStep(ctx: Context, t: Tally, rs: seq<Row>)
    requires rs != []
    ensures Run(ctx, t, rs) == Run(ctx, Apply(ctx, t, rs[0]), rs[1..])
  {
  }

  /** Every id written during a run is in the ledger at its end. */
  lemma {:induction false} RunRecordsWrites(ctx: Context, t: Tally, rs: seq<Row>, r: Tally)
    requires r == Run(ctx, t, rs)
    requires forall i :: 0 <= i < |t.written| ==> InvoiceAlreadyImported(t.ledger, t.written[i])
    ensures forall i :: 0 <= i < |r.written| ==> InvoiceAlreadyImported(r.ledger, r.written[i])
    decreases |rs|
  {
    if rs != [] {
      var t' := Apply(ctx, t, rs[0]);
      ApplyWrites(ctx, t, rs[0]);
      forall i | 0 <= i < |t'.written|
        ensures InvoiceAlreadyImported(t'.ledger, t'.written[i])
      {
        if i < |t.written| {
          ApplyGrowsLedger(ctx, t, rs[0], t.written[i]);
        }
      }
      RunStep(ctx, t, rs);
      RunRecordsWrites(ctx, t', rs[1..], r);
    }
  }

  /** The ids written during a run are new to the ledger the run started
      from, and pairwise different: an id is written at most once, and
      never when it was recorded when the run started. */
  lemma {:induction false} RunWritesFresh(ctx: Context, t: Tally, rs: seq<Row>, r: Tally)
    requires r == Run(ctx, t, rs)
    ensures forall i :: |t.written| <= i < |r.written| ==> !InvoiceAlreadyImported(t.ledger, r.written[i])
    ensures forall i, j :: |t.written| <= i < j < |r.written| ==> r.written[i] != r.written[j]
    decreases |rs|
  {
    if rs != [] {
      var t' := Apply(ctx, t, rs[0]);
      RunStep(ctx, t, rs);
      RunWritesFresh(ctx, t', rs[1..], r);
      ApplyWrites(ctx, t, rs[0]);
      forall q | InvoiceAlreadyImported(t.ledger, q) ensures InvoiceAlreadyImported(t'.ledger, q) {
        ApplyGrowsLedger(ctx, t, rs[0], q);
      }
      FreshStep(t.ledger, t'.ledger, t.written, t'.written, r.written, Cell(rs[0], "reservation_id"));
    }
  }

  /** One step of `RunWritesFresh`: a step that writes at most one new id,
      and records it, keeps the ids written after it fresh and distinct. */
  lemma FreshStep(l0: InvoiceState, l1: InvoiceState, w0: seq<string>, w1: seq<string>, rw: seq<string>, id: string)
    requires w1 == w0 || (w1 == w0 + [id] && !InvoiceAlreadyImported(l0, id) && InvoiceAlreadyImported(l1, id))
    requires forall q :: InvoiceAlreadyImported(l0, q) ==> InvoiceAlreadyImported(l1, q)
    requires w1 <= rw
    requires forall i :: |w1| <= i < |rw| ==> !InvoiceAlreadyImported(l1, rw[i])
    requires forall i, j :: |w1| <= i < j < |rw| ==> rw[i] != rw[j]
    ensures forall i :: |w0| <= i < |rw| ==> !InvoiceAlreadyImported(l0, rw[i])
    ensures forall i, j :: |w0| <= i < j < |rw| ==> rw[i] != rw[j]
  {
    if w1 != w0 {
      assert rw[|w0|] == id;
    }
  }

  /** A dry run records nothing in the ledger and writes nothing. */
  lemma {:induction false} DryRunChangesNothing(ctx: Context, t: Tally, rs: seq<Row>)
    requires ctx.debug
    ensures Run(ctx, t, rs).ledger == t.ledger
    ensures Run(ctx, t, rs).written == t.written
    ensures Run(ctx, t, rs).generated == t.generated
    decreases |rs|
  {
    if rs != [] {
      ApplyGrowsLedger(ctx, t, rs[0], "");
      DryRunChangesNothing(ctx, Apply(ctx, t, rs[0]), rs[1..]);
    }
  }

  /** `generate_all_invoices` writes each reservation id at most once, never
      one the ledger already held, and records every id it writes; a
      second run from the ledger the first one left writes none of them
      again. */
  lemma RerunWritesNothingTwice(ctx: Context, st: InvoiceState, reservations: seq<Row>, ctx2: Context, reservations2: seq<Row>)
    ensures var first := GenerateAllInvoices(ctx, st, reservations).1;
            var second := GenerateAllInvoices(ctx2, first.ledger, reservations2).1;
            (forall i, j :: 0 <= i < j < |first.written| ==> first.written[i] != first.written[j])
            && (forall i :: 0 <= i < |first.written| ==> !InvoiceAlreadyImported(st, first.written[i]))
            && (forall i, j :: 0 <= i < |first.written| && 0 <= j < |second.written| ==> first.written[i] != second.written[j])
  {
    var t0 := Tally(st, 0, 0, 0, [], []);
    var first := Run(ctx, t0, BatchOrder(reservations));
    assert GenerateAllInvoices(ctx, st, reservations).1 == first;
    RunWritesFresh(ctx, t0, BatchOrder(reservations), first);
    RunRecordsWrites(ctx, t0, BatchOrder(reservations), first);
    var t1 := Tally(first.ledger, 0, 0, 0, [], []);
    var second := Run(ctx2, t1, BatchOrder(reservations2));
    assert GenerateAllInvoices(ctx2, first.ledger, reservations2).1 == second;
    RunWritesFresh(ctx2, t1, BatchOrder(reservations2), second);
    RerunDisjoint(st, first, second);
  }

  /** What the two runs' lemmas give, put together. */
  lemma RerunDisjoint(st: InvoiceState, first: Tally, second: Tally)
    requires forall i :: 0 <= i < |first.written| ==> !InvoiceAlreadyImported(st, first.written[i])
    requires forall i, j :: 0 <= i < j < |first.written| ==> first.written[i] != first.written[j]
    requires forall i :: 0 <= i < |first.written| ==> InvoiceAlreadyImported(first.ledger, first.written[i])
    requires forall j :: 0 <= j < |second.written| ==> !InvoiceAlreadyImported(first.ledger, second.written[j])
    ensures (forall i, j :: 0 <= i < j < |first.written| ==> first.written[i] != first.written[j])
            && (forall i :: 0 <= i < |first.written| ==> !InvoiceAlreadyImported(st, first.written[i]))
            && (forall i, j :: 0 <= i < |first.written| && 0 <= j < |second.written| ==> first.written[i] != second.written[j])
  {
  }

  /** A dry run over any reservations reports failure unless there were
      none: it never counts anything as generated. */
  lemma DryRunReportsFailure(ctx: Context, st: InvoiceState, reservations: seq<Row>)
    requires ctx.debug
    ensures GenerateAllInvoices(ctx, st, reservations).0 <==> reservations == []
    ensures GenerateAllInvoices(ctx, st, reservations).1.ledger == st
  {
    DryRunChangesNothing(ctx, Tally(st, 0, 0, 0, [], []), BatchOrder(reservations));
  }

  /** The line count the loop expects is the number of lines it generates,
      so a reservation written once is complete on the next read of the
      sheet. */
  lemma ExpectedIsGenerated(ratio: (string, string) -> real, rnd: real -> real, res: Row, forms: seq<Row>)
    requires GenerateInvoiceLines(ratio, rnd, res, forms).Ok?
    ensures |GenerateInvoiceLines(ratio, rnd, res, forms).value| == ExpectedLines(res)
  {
    LineCount(ratio, rnd, res, forms);
  }

  /** Adding `n` rows of a reservation to the sheet raises its count by `n`. */
  lemma {:induction false} ExistingLinesAppend(a: seq<Row>, b: seq<Row>, id: string)
    ensures ExistingLines(a + b, id) == ExistingLines(a, id) + ExistingLines(b, id)
  {
    if a == [] {
      assert a + b == b;
    } else {
      assert (a + b)[1..] == a[1..] + b;
      ExistingLinesAppend(a[1..], b, id);
    }
  }
}

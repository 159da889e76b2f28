/** `LodgifyService`'s data helpers: reading the dates, the guest and the
    fixed fields of a reservation the Lodgify API returns as JSON, and
    flattening nested JSON into dotted keys. The HTTP calls are not part of
    this model. */
module Lodgify {
  import opened Base
  import opened Calendar
  import opened Strptime
  import opened StrptimeFacts
  import DateUtils

  /** A value decoded by `response.json()`. A dict keeps its keys in
      insertion order and holds each key once. */
  datatype Json =
    | JNull
    | JBool(b: bool)
    | JNum(x: real)
    | JStr(s: string)
    | JArr(items: seq<Json>)
    | JObj(members: seq<Member>)

  datatype Member = Member(key: string, value: Json)

  type Obj = seq<Member>

  /** Python's `bool(v)`. */
  predicate Bool(v: Json) {
    match v
    case JNull => false
    case JBool(b) => b
    case JNum(x) => x != 0.0
    case JStr(s) => s != ""
    case JArr(items) => items != []
    case JObj(ms) => ms != []
  }

  /** `d[k]` when `k in d`. */
  function Find(o: Obj, k: string): (r: Option<Json>)
    ensures r.Some? <==> exists i :: 0 <= i < |o| && o[i].key == k
    ensures r.Some? ==> exists i :: 0 <= i < |o| && o[i].key == k && o[i].value == r.value
  {
    if o == [] then None
    else if o[0].key == k then Some(o[0].value)
    else
      var r := Find(o[1..], k);
      assert forall i :: 1 <= i < |o| ==> o[i] == o[1..][i - 1];
      if r.Some? then
        var i :| 0 <= i < |o[1..]| && o[1..][i].key == k && o[1..][i].value == r.value;
        assert o[i + 1].key == k;
        r
      else r
  }

  /** `d.get(k, default)`. */
  function FindOr(o: Obj, k: string, default: Json): Json {
    match Find(o, k)
    case Some(v) => v
    case None => default
  }

  // ---------------------------------------------------------------------
  // _normalize_date_to_iso

  /** The formats tried after the `YYYY-MM-DD` fast path, in order; day
      first comes before month first. */
  const OtherFormats: seq<string> := [
    "%Y/%m/%d", "%d/%m/%Y", "%d-%m-%Y", "%m/%d/%Y",
    "%Y-%m-%d %H:%M:%S", "%Y-%m-%dT%H:%M:%S", "%Y-%m-%dT%H:%M:%SZ"]

  const AllFormats: seq<string> := ["%Y-%m-%d"] + OtherFormats

  /** A text `date.strftime('%Y-%m-%d')` writes: it reads back as a date,
      and that date writes back as the same text. */
  predicate IsIsoText(t: string) {
    var p := ParseDate(t, "%Y-%m-%d");
    p.Some? && t == Iso(p.value)
  }

  /** The fast path's guard: ten characters, two dashes, and
      `strptime(s, '%Y-%m-%d')` accepts the text. */
  predicate IsoShaped(s: string) {
    |s| == 10 && CountChar(s, '-') == 2 && ParseDate(s, "%Y-%m-%d").Some?
  }

  /** The date a trimmed text stands for: through the fast path, or the
      first of the other formats that accepts it. */
  function ReadDate(s: string): (r: Option<Date>)
    ensures r.Some? ==> Valid(r.value)
    ensures r.Some? <==> IsoShaped(s) || exists k :: 0 <= k < |OtherFormats| && ParseDate(s, OtherFormats[k]).Some?
    ensures r.Some? ==> exists k :: 0 <= k < |AllFormats| && ParseDate(s, AllFormats[k]) == r
  {
    assert forall k :: 0 <= k < |OtherFormats| ==> AllFormats[k + 1] == OtherFormats[k];
    if IsoShaped(s) then
      assert ParseDate(s, AllFormats[0]).Some?;
      ParseDate(s, "%Y-%m-%d")
    else
      FirstFormat(s, OtherFormats)
  }

  /** `_normalize_date_to_iso(v)` as written: a text that passes the fast
      path is returned as it is. `Err` where the Python raises
      `ValueError`; a JSON value is never a `datetime`. */
  function NormalizeDateToIsoAsWritten(v: Json): (r: Result<string>)
    ensures r.Ok? ==> v.JStr? && ParseDate(r.value, "%Y-%m-%d") == ReadDate(Strip(v.s))
    ensures v.JStr? ==> (r.Ok? <==> ReadDate(Strip(v.s)).Some?)
  {
    match v
    case JStr(raw) =>
      var s := Strip(raw);
      if IsoShaped(s) then Ok(s)
      else
        (match ReadDate(s)
         case Some(d) => ParseIso(d); Ok(Iso(d))
         case None => Err("Unable to parse date: " + raw))
    case _ => Err("Invalid date type")
  }

  /** `_normalize_date_to_iso(v)` as its documentation promises: the date
      the first accepting format reads, written `YYYY-MM-DD`. */
  function NormalizeDateToIso(v: Json): (r: Result<string>)
    ensures r.Ok? ==> IsIsoText(r.value)
    ensures r.Ok? ==> v.JStr? && ParseDate(r.value, "%Y-%m-%d") == ReadDate(Strip(v.s))
    ensures v.JStr? ==> (r.Ok? <==> ReadDate(Strip(v.s)).Some?)
    ensures v.JStr? && r.Err? ==> r.msg == "Unable to parse date: " + v.s
    ensures !v.JStr? ==> r == Err("Invalid date type")
  {
    match v
    case JStr(raw) =>
      (match ReadDate(Strip(raw))
       case Some(d) => ParseIso(d); Ok(Iso(d))
       case None => Err("Unable to parse date: " + raw))
    case _ => Err("Invalid date type")
  }

  /** The two agree exactly where the as-written fast path hands back a
      canonical text. */
  lemma AsWrittenAgreesWhenCanonical(v: Json)
    requires NormalizeDateToIsoAsWritten(v).Ok?
    ensures NormalizeDateToIso(v) == NormalizeDateToIsoAsWritten(v) <==> IsIsoText(NormalizeDateToIsoAsWritten(v).value)
  {
  }

  lemma {:induction false} CountCharConcat(a: string, b: string, c: char)
    ensures CountChar(a + b, c) == CountChar(a, c) + CountChar(b, c)
  {
    if a == [] {
      assert a + b == b;
    } else {
      assert (a + b)[0] == a[0] && (a + b)[1..] == a[1..] + b;
      CountCharConcat(a[1..], b, c);
    }
  }

  lemma {:induction false} CountCharDigits(s: string)
    requires AllDigits(s)
    ensures CountChar(s, '-') == 0
  {
    if |s| > 1 {
      CountCharDigits(s[1..]);
    }
  }

  /** A `YYYY-MM-DD` text passes the fast path. */
  lemma IsoTextShaped(d: Date)
    requires Valid(d)
    ensures Strip(Iso(d)) == Iso(d) && IsoShaped(Iso(d)) && IsIsoText(Iso(d))
  {
    var s := Iso(d);
    assert s[0] == Pad4(d.year)[0] && s[9] == Pad2(d.day)[1];
    DateUtils.NumericEndsStripped(s);
    CountCharDigits(Pad4(d.year));
    CountCharDigits(Pad2(d.month));
    CountCharDigits(Pad2(d.day));
    CountCharConcat(Pad4(d.year), "-", '-');
    CountCharConcat(Pad4(d.year) + "-", Pad2(d.month), '-');
    CountCharConcat(Pad4(d.year) + "-" + Pad2(d.month), "-", '-');
    CountCharConcat(Pad4(d.year) + "-" + Pad2(d.month) + "-", Pad2(d.day), '-');
    ParseIso(d);
  }

  /** A `YYYY-MM-DD` text comes back unchanged, from either definition,
      and normalising an output again changes nothing. */
  lemma IsoUnchanged(d: Date)
    requires Valid(d)
    ensures NormalizeDateToIso(JStr(Iso(d))) == Ok(Iso(d))
    ensures NormalizeDateToIsoAsWritten(JStr(Iso(d))) == Ok(Iso(d))
  {
    IsoTextShaped(d);
    ParseIso(d);
  }

  lemma NormalizeIdempotent(v: Json)
    requires NormalizeDateToIso(v).Ok?
    ensures NormalizeDateToIso(JStr(NormalizeDateToIso(v).value)) == NormalizeDateToIso(v)
  {
    var t := NormalizeDateToIso(v).value;
    IsoUnchanged(ParseDate(t, "%Y-%m-%d").value);
  }

  /** A day-first slashed text is read day first: `05/08/2025` is the
      5th of August here, although `date_utils.normalize_date` reads the
      same text month first. */
  lemma DayFirst(d: Date)
    requires Valid(d)
    ensures NormalizeDateToIso(JStr(DmyText(d, '/'))) == Ok(Iso(d))
  {
    var s := DmyText(d, '/');
    assert s[0] == Pad2(d.day)[0] && s[9] == Pad4(d.year)[3] && s[2] == '/';
    DateUtils.NumericEndsStripped(s);
    DateUtils.YearFormatsReject(s);
    assert !IsoShaped(s);
    ParseDmy(d);
    assert OtherFormats[0] == "%Y/%m/%d" && OtherFormats[1..][0] == "%d/%m/%Y";
    DateUtils.SkipFormat(s, OtherFormats);
    DateUtils.TakeFormat(s, OtherFormats[1..]);
  }

  lemma ReadsDifferently(d: Date)
    requires Valid(d) && d.day <= 12 && Valid(Date(d.year, d.day, d.month))
    ensures NormalizeDateToIso(JStr(DmyText(d, '/'))) == Ok(Iso(d))
    ensures DateUtils.NormalizeDate(VStr(DmyText(d, '/'))) == Ok(Iso(Date(d.year, d.day, d.month)))
  {
    DayFirst(d);
    var e := Date(d.year, d.day, d.month);
    assert MdyText(e, '/') == DmyText(d, '/');
    DateUtils.MonthFirst(e);
  }

  // The space-padded day

  /** `YYYY-MM- D`: `%d` also takes a space followed by a digit. */
  function SpaceDayText(d: Date): (r: string)
    requires Valid(d) && d.day <= 9
    ensures |r| == 10
  {
    Pad4(d.year) + "-" + Pad2(d.month) + "- " + [DigitChar(d.day)]
  }

  lemma SpaceDayCand(s: string, i: nat, x: int)
    requires 1 <= x <= 9 && i + 2 <= |s| && s[i] == ' ' && s[i + 1] == DigitChar(x)
    ensures Cands(Directive(Day), s, i) == [Cand(2, x)]
  {
    DigitRoundTrip(x);
  }

  lemma MatchSpaceDay(d: Date)
    requires Valid(d) && d.day <= 9
    ensures ParseDate(SpaceDayText(d), "%Y-%m-%d") == Some(d)
  {
    MatchSpaceDayPattern(d);
    BuildYmd(d);
    CompileYmdDash();
    ParseByMatch(SpaceDayText(d), "%Y-%m-%d", YmdCaptures(d), d);
  }

  lemma MatchSpaceDayPattern(d: Date)
    requires Valid(d) && d.day <= 9
    ensures MatchFrom(YmdPattern('-'), SpaceDayText(d), 0, map[]) == Some((YmdCaptures(d), 10))
  {
    var s := SpaceDayText(d);
    var p := YmdPattern('-');
    var c1 := map[Year := d.year];
    var c2 := map[Year := d.year, Month := d.month];
    var m := (YmdCaptures(d), 10);
    SpaceDayCand(s, 8, d.day);
    assert p[4..][1..] == [];
    StepFirst(p[4..], s, 8, c2, Cand(2, d.day), m);
    LitCand(s, 7, '-');
    assert p[3..][1..] == p[4..];
    StepFirst(p[3..], s, 7, c2, Cand(1, 0), m);
    assert s[5..7] == Pad2(d.month);
    MonthCand(s, 5, d.month);
    assert p[2..][1..] == p[3..];
    StepFirst(p[2..], s, 5, c1, Cand(2, d.month), m);
    LitCand(s, 4, '-');
    assert p[1..][1..] == p[2..];
    StepFirst(p[1..], s, 4, c1, Cand(1, 0), m);
    assert s[0..4] == Pad4(d.year);
    YearCand(s, 0, d.year);
    StepFirst(p, s, 0, map[], Cand(4, d.year), m);
  }

  /** The fast path hands back `2025-01- 5` as it is, which is not a
      `YYYY-MM-DD` text; the documented behaviour gives `2025-01-05`. */
  lemma SpacePaddedDayKept(d: Date)
    requires Valid(d) && d.day <= 9
    ensures NormalizeDateToIsoAsWritten(JStr(SpaceDayText(d))) == Ok(SpaceDayText(d))
    ensures !IsIsoText(SpaceDayText(d))
    ensures NormalizeDateToIso(JStr(SpaceDayText(d))) == Ok(Iso(d))
  {
    var s := SpaceDayText(d);
    assert s[0] == Pad4(d.year)[0] && s[9] == DigitChar(d.day);
    DateUtils.NumericEndsStripped(s);
    CountCharDigits(Pad4(d.year));
    CountCharDigits(Pad2(d.month));
    CountCharConcat(Pad4(d.year), "-", '-');
    CountCharConcat(Pad4(d.year) + "-", Pad2(d.month), '-');
    CountCharConcat(Pad4(d.year) + "-" + Pad2(d.month), "- ", '-');
    CountCharConcat(Pad4(d.year) + "-" + Pad2(d.month) + "- ", [DigitChar(d.day)], '-');
    MatchSpaceDay(d);
    assert IsoShaped(s);
    assert s[8] == ' ' && Iso(d)[8] == '0';
  }

  // ---------------------------------------------------------------------
  // extract_guest_info

  /** The guest fields `extract_guest_info` returns. */
  datatype GuestInfo = GuestInfo(name: Json, email: Json, phone: Json, count: Json)

  const NoGuest := GuestInfo(JStr(""), JStr(""), JStr(""), JNum(0.0))

  /** What `guests` offers: its first entry when it is a non-empty list,
      itself when it is a dict, `None` otherwise. */
  function FromGuests(res: Obj): Json {
    match Find(res, "guests")
    case Some(JArr(items)) => if items != [] then items[0] else JNull
    case Some(JObj(ms)) => JObj(ms)
    case _ => JNull
  }

  /** The guest record: the first truthy of `guests`, `guest` and
      `contact`, in that order. */
  function GuestData(res: Obj): (r: Json)
    ensures Bool(r) <==> Bool(FromGuests(res)) || Bool(FindOr(res, "guest", JNull)) || Bool(FindOr(res, "contact", JNull))
    ensures Bool(FromGuests(res)) ==> r == FromGuests(res)
    ensures !Bool(FromGuests(res)) && Bool(FindOr(res, "guest", JNull)) ==> r == FindOr(res, "guest", JNull)
    ensures !Bool(FromGuests(res)) && !Bool(FindOr(res, "guest", JNull)) && Bool(FindOr(res, "contact", JNull))
            ==> r == FindOr(res, "contact", JNull)
  {
    var g0 := FromGuests(res);
    var g1 := if !Bool(g0) && Find(res, "guest").Some? then Find(res, "guest").value else g0;
    if !Bool(g1) && Find(res, "contact").Some? then Find(res, "contact").value else g1
  }

  /** How an f-string shows a value: a text as itself, anything else as
      `str(v)` gives it. */
  function Text(v: Json, str: Json -> string): string {
    if v.JStr? then v.s else str(v)
  }

  /** `name or fullName or f"{firstName} {lastName}".strip()`. */
  function GuestName(g: Obj, str: Json -> string): Json {
    var name := FindOr(g, "name", JNull);
    var full := FindOr(g, "fullName", JNull);
    if Bool(name) then name
    else if Bool(full) then full
    else JStr(Strip(Text(FindOr(g, "firstName", JStr("")), str) + " " + Text(FindOr(g, "lastName", JStr("")), str)))
  }

  /** `extract_guest_info(reservation)`. */
  function ExtractGuestInfo(res: Obj, str: Json -> string): (r: GuestInfo)
    ensures !(Bool(GuestData(res)) && GuestData(res).JObj?) ==> r == NoGuest
    ensures Bool(GuestData(res)) && GuestData(res).JObj? ==>
      var g := GuestData(res).members;
      && r.name == GuestName(g, str)
      && r.email == FindOr(g, "email", JStr(""))
      && r.phone == FindOr(g, "phone", JStr(""))
      && (Bool(FindOr(g, "guestCount", JNull)) ==> r.count == FindOr(g, "guestCount", JNull))
      && (!Bool(FindOr(g, "guestCount", JNull)) && Bool(FindOr(g, "guest_count", JNull)) ==> r.count == FindOr(g, "guest_count", JNull))
      && (!Bool(FindOr(g, "guestCount", JNull)) && !Bool(FindOr(g, "guest_count", JNull)) ==> r.count == FindOr(res, "guestCount", JNum(0.0)))
  {
    var gd := GuestData(res);
    if Bool(gd) && gd.JObj? then
      var g := gd.members;
      var count :=
        if Bool(FindOr(g, "guestCount", JNull)) then FindOr(g, "guestCount", JNull)
        else if Bool(FindOr(g, "guest_count", JNull)) then FindOr(g, "guest_count", JNull)
        else FindOr(res, "guestCount", JNum(0.0));
      GuestInfo(GuestName(g, str), FindOr(g, "email", JStr("")), FindOr(g, "phone", JStr("")), count)
    else NoGuest
  }

  /** The name is shown exactly when the guest record gives one: a
      truthy `name` or `fullName`, or first and last names that are not
      both blank. */
  lemma GuestNameShown(g: Obj, str: Json -> string)
    ensures Bool(GuestName(g, str)) <==>
      Bool(FindOr(g, "name", JNull)) || Bool(FindOr(g, "fullName", JNull))
      || !Blank(Text(FindOr(g, "firstName", JStr("")), str) + " " + Text(FindOr(g, "lastName", JStr("")), str))
  {
    StripEmptyIffBlank(Text(FindOr(g, "firstName", JStr("")), str) + " " + Text(FindOr(g, "lastName", JStr("")), str));
  }

  /** A reservation with none of `guests`, `guest` and `contact` has no
      guest details. */
  lemma NoGuestSources(res: Obj, str: Json -> string)
    requires Find(res, "guests").None? && Find(res, "guest").None? && Find(res, "contact").None?
    ensures ExtractGuestInfo(res, str) == NoGuest
  {
  }

  /** A guest record in the `guests` list wins over `guest` and `contact`. */
  lemma GuestsListWins(res: Obj, first: Obj, rest: seq<Json>, str: Json -> string)
    requires first != []
    requires Find(res, "guests") == Some(JArr([JObj(first)] + rest))
    ensures ExtractGuestInfo(res, str).name == GuestName(first, str)
    ensures ExtractGuestInfo(res, str).email == FindOr(first, "email", JStr(""))
  {
    assert FromGuests(res) == JObj(first);
  }

  /** With neither `name` nor `fullName`, the name is built from the
      first and last names: `Ana` and `Silva` give `Ana Silva`, a lone
      `Ana` gives `Ana`. */
  lemma NameFromParts(g: Obj, first: string, last: string, str: Json -> string)
    requires Find(g, "name").None? && Find(g, "fullName").None?
    requires Find(g, "firstName") == Some(JStr(first)) && Find(g, "lastName") == Some(JStr(last))
    ensures GuestName(g, str) == JStr(Strip(first + " " + last))
  {
  }

  // ---------------------------------------------------------------------
  // normalize_reservation

  /** The fixed-key dict `normalize_reservation` builds, with the four
      guest keys of `extract_guest_info` merged in. */
  datatype Reservation = Reservation(
    id: Json, propertyId: Json, unitId: Json, checkIn: Json, checkOut: Json, status: Json,
    totalPrice: Json, currency: Json, channel: Json, createdAt: Json, updatedAt: Json,
    guest: GuestInfo)

  /** `reservation.get(primary, reservation.get(fallback, default))`. */
  function Pick(res: Obj, primary: string, fallback: string, default: Json): Json {
    match Find(res, primary)
    case Some(v) => v
    case None => FindOr(res, fallback, default)
  }

  /** A stay date: normalised when truthy and readable, kept as it was
      otherwise (the `ValueError` is swallowed). */
  function NormalizeStayDate(v: Json): (r: Json)
    ensures r == v || (r.JStr? && IsIsoText(r.s))
    ensures r != v ==> Bool(v) && v.JStr?
    ensures Bool(v) && v.JStr? && ReadDate(Strip(v.s)).Some? ==>
      r == JStr(Iso(ReadDate(Strip(v.s)).value))
    ensures v.JStr? && ReadDate(Strip(v.s)).None? ==> r == v
  {
    if Bool(v) then
      match NormalizeDateToIso(v)
      case Ok(t) => JStr(t)
      case Err(_) => v
    else v
  }

  /** A stay date already normalised stays put. */
  lemma NormalizeStayDateIdempotent(v: Json)
    ensures NormalizeStayDate(NormalizeStayDate(v)) == NormalizeStayDate(v)
  {
    var r := NormalizeStayDate(v);
    if r != v {
      IsoUnchanged(ParseDate(r.s, "%Y-%m-%d").value);
    }
  }

  /** A stay date as the code normalises it, through the as-written
      reader: a truthy readable text becomes either its trimmed self, when
      the fast path takes it, or the canonical text of its date. */
  function NormalizeStayDateAsWritten(v: Json): (r: Json)
    ensures r != v ==> Bool(v) && v.JStr?
    ensures Bool(v) && v.JStr? ==> (r == v <==> ReadDate(Strip(v.s)).None? || NormalizeDateToIsoAsWritten(v).value == v.s)
    ensures Bool(v) && v.JStr? && ReadDate(Strip(v.s)).Some? ==>
      r.JStr? && ParseDate(r.s, "%Y-%m-%d") == ReadDate(Strip(v.s))
      && (r.s == Strip(v.s) || r.s == Iso(ReadDate(Strip(v.s)).value))
  {
    if Bool(v) then
      match NormalizeDateToIsoAsWritten(v)
      case Ok(t) => JStr(t)
      case Err(_) => v
    else v
  }

  /** The as-written stay date is settled too: its output passes the fast
      path unchanged or is already canonical. */
  lemma NormalizeStayDateAsWrittenIdempotent(v: Json)
    ensures NormalizeStayDateAsWritten(NormalizeStayDateAsWritten(v)) == NormalizeStayDateAsWritten(v)
  {
    var r := NormalizeStayDateAsWritten(v);
    if r != v {
      var s := Strip(v.s);
      if IsoShaped(s) {
        StripOfStripped(s);
      } else {
        IsoUnchanged(ReadDate(s).value);
      }
    }
  }

  /** The two stay-date rules differ only on a text the fast path hands
      back in a form that is not `YYYY-MM-DD`. */
  lemma StayDateRulesAgree(v: Json)
    requires !(v.JStr? && IsoShaped(Strip(v.s)) && !IsIsoText(Strip(v.s)))
    ensures NormalizeStayDateAsWritten(v) == NormalizeStayDate(v)
  {
    if Bool(v) && v.JStr? && NormalizeDateToIsoAsWritten(v).Ok? {
      AsWrittenAgreesWhenCanonical(v);
    }
  }

  /** `normalize_reservation(reservation)`. */
  function NormalizeReservation(res: Obj, str: Json -> string): (r: Reservation)
    ensures r.checkIn == Pick(res, "checkIn", "check_in", JStr(""))
            || (r.checkIn.JStr? && IsIsoText(r.checkIn.s))
    ensures r.checkOut == Pick(res, "checkOut", "check_out", JStr(""))
            || (r.checkOut.JStr? && IsIsoText(r.checkOut.s))
    ensures Find(res, "totalPrice").Some? ==> r.totalPrice == Find(res, "totalPrice").value
    ensures Find(res, "totalPrice").None? && Find(res, "total_price").None? ==> r.totalPrice == JNum(0.0)
    ensures r.guest == ExtractGuestInfo(res, str)
  {
    Reservation(
      FindOr(res, "id", JStr("")),
      Pick(res, "propertyId", "property_id", JStr("")),
      Pick(res, "unitId", "unit_id", JStr("")),
      NormalizeStayDate(Pick(res, "checkIn", "check_in", JStr(""))),
      NormalizeStayDate(Pick(res, "checkOut", "check_out", JStr(""))),
      FindOr(res, "status", JStr("")),
      Pick(res, "totalPrice", "total_price", JNum(0.0)),
      FindOr(res, "currency", JStr("")),
      Pick(res, "channel", "bookingChannel", JStr("")),
      Pick(res, "createdAt", "created_at", JStr("")),
      Pick(res, "updatedAt", "updated_at", JStr("")),
      ExtractGuestInfo(res, str))
  }

  /** A day-first check-in under `checkIn` comes out as `YYYY-MM-DD`,
      whatever `check_in` holds. */
  lemma CheckInNormalised(res: Obj, d: Date, str: Json -> string)
    requires Valid(d)
    requires Find(res, "checkIn") == Some(JStr(DmyText(d, '/')))
    ensures NormalizeReservation(res, str).checkIn == JStr(Iso(d))
  {
    DayFirst(d);
  }

  /** An unreadable check-out is kept as the API sent it. */
  lemma UnreadableKept(res: Obj, raw: string, str: Json -> string)
    requires Find(res, "checkOut") == Some(JStr(raw))
    requires ReadDate(Strip(raw)).None?
    ensures NormalizeReservation(res, str).checkOut == JStr(raw)
  {
  }

  /** Normalising the stay dates of an output again changes nothing. */
  lemma StayDatesSettled(res: Obj, str: Json -> string)
    ensures var r := NormalizeReservation(res, str);
      NormalizeStayDate(r.checkIn) == r.checkIn && NormalizeStayDate(r.checkOut) == r.checkOut
  {
    NormalizeStayDateIdempotent(Pick(res, "checkIn", "check_in", JStr("")));
    NormalizeStayDateIdempotent(Pick(res, "checkOut", "check_out", JStr("")));
  }

  // ---------------------------------------------------------------------
  // flatten_lodgify_json

  /** `f"{prefix}.{key}" if prefix else key`. */
  function Child(prefix: string, key: string): string {
    if prefix == "" then key else prefix + "." + key
  }

  /** `f"{key}[{i}]"`. */
  function Indexed(key: string, i: nat): string {
    key + "[" + NatToString(i) + "]"
  }

  lemma StartsWithChild(prefix: string, key: string)
    ensures StartsWith(Child(prefix, key), prefix)
  {
    if prefix != "" {
      assert Child(prefix, key)[..|prefix|] == prefix;
    }
  }

  lemma StartsWithIndexed(key: string, i: nat)
    ensures StartsWith(Indexed(key, i), key) && Indexed(key, i) != ""
  {
    assert Indexed(key, i)[..|key|] == key;
  }

  lemma StartsWithTransitive(a: string, b: string, c: string)
    requires StartsWith(a, b) && StartsWith(b, c)
    ensures StartsWith(a, c)
  {
    assert a[..|c|] == a[..|b|][..|c|];
  }

  /** No assigned value is a dict, and with a non-empty prefix every
      assigned key extends it. */
  predicate Settled(asg: seq<Member>, prefix: string) {
    forall k :: 0 <= k < |asg| ==> !asg[k].value.JObj? && (prefix != "" ==> StartsWith(asg[k].key, prefix))
  }

  lemma SettledConcat(a: seq<Member>, b: seq<Member>, prefix: string)
    requires Settled(a, prefix) && Settled(b, prefix)
    ensures Settled(a + b, prefix)
  {
    forall k | 0 <= k < |a + b|
      ensures !(a + b)[k].value.JObj? && (prefix != "" ==> StartsWith((a + b)[k].key, prefix))
    {
      if k < |a| { assert (a + b)[k] == a[k]; } else { assert (a + b)[k] == b[k - |a|]; }
    }
  }

  lemma SettledWiden(asg: seq<Member>, inner: string, prefix: string)
    requires Settled(asg, inner)
    requires prefix != "" ==> inner != "" && StartsWith(inner, prefix)
    ensures Settled(asg, prefix)
  {
    forall k | 0 <= k < |asg| && prefix != ""
      ensures StartsWith(asg[k].key, prefix)
    {
      StartsWithTransitive(asg[k].key, inner, prefix);
    }
  }

  /** The assignments `flatten_lodgify_json(data, prefix)` makes, in
      order; a later one for the same key overwrites an earlier one. */
  function Flatten(data: Json, prefix: string): (r: seq<Member>)
    ensures Settled(r, prefix)
    decreases data
  {
    match data
    case JObj(ms) => FlattenMembers(ms, prefix)
    case JArr(items) => FlattenItems(items, prefix, 0)
    case _ => []
  }

  /** The dict branch: one member after another. */
  function FlattenMembers(ms: seq<Member>, prefix: string): (r: seq<Member>)
    ensures Settled(r, prefix)
    decreases ms
  {
    if ms == [] then []
    else
      var key := Child(prefix, ms[0].key);
      var v := ms[0].value;
      StartsWithChild(prefix, ms[0].key);
      var head :=
        match v
        case JObj(_) => Flatten(v, key)
        case JArr(items) => FlattenItems(items, key, 0)
        case _ => [Member(key, v)];
      SettledWiden(head, key, prefix);
      SettledConcat(head, FlattenMembers(ms[1..], prefix), prefix);
      head + FlattenMembers(ms[1..], prefix)
  }

  /** The list loop: a dict entry is flattened under `key[i]`, anything
      else (a nested list included) is assigned to `key[i]` as it is. */
  function FlattenItems(items: seq<Json>, key: string, i: nat): (r: seq<Member>)
    ensures Settled(r, key)
    decreases items
  {
    if items == [] then []
    else
      var at := Indexed(key, i);
      StartsWithIndexed(key, i);
      var head := if items[0].JObj? then Flatten(items[0], at) else [Member(at, items[0])];
      SettledWiden(head, at, key);
      SettledConcat(head, FlattenItems(items[1..], key, i + 1), key);
      head + FlattenItems(items[1..], key, i + 1)
  }

  /** The dict the assignments leave: each key holds its last value. */
  function ToMap(asg: seq<Member>): (r: map<string, Json>)
    ensures forall k :: 0 <= k < |asg| ==> asg[k].key in r
    ensures forall key :: key in r ==> exists k :: 0 <= k < |asg| && asg[k].key == key && r[key] == asg[k].value
  {
    if asg == [] then map[]
    else
      var last := asg[|asg| - 1];
      var init := ToMap(asg[..|asg| - 1]);
      assert forall k :: 0 <= k < |asg| - 1 ==> asg[..|asg| - 1][k] == asg[k];
      init[last.key := last.value]
  }

  /** A key ends up with the value of its last assignment. */
  lemma {:induction false} LastAssignmentWins(asg: seq<Member>, k: nat)
    requires k < |asg|
    requires forall j :: k < j < |asg| ==> asg[j].key != asg[k].key
    ensures ToMap(asg)[asg[k].key] == asg[k].value
  {
    var init := asg[..|asg| - 1];
    var last := asg[|asg| - 1];
    assert ToMap(asg) == ToMap(init)[last.key := last.value];
    if k < |asg| - 1 {
      assert init[k] == asg[k];
      assert last.key != asg[k].key;
      forall j | k < j < |init| ensures init[j].key != init[k].key {
        assert init[j] == asg[j];
      }
      LastAssignmentWins(init, k);
    }
  }

  // The leaves of a JSON value, stated without an order

  /** `key` is the path of a leaf `v` of `data` under `prefix`: reached
      through dict members (joined with dots) and list positions (`[i]`),
      where a leaf is any value that is not a dict, and a list inside a
      list is itself a leaf. */
  predicate Leaf(data: Json, prefix: string, key: string, v: Json)
    decreases data, 1
  {
    match data
    case JObj(ms) => exists k :: 0 <= k < |ms| && MemberLeaf(ms[k], prefix, key, v)
    case JArr(items) => SomeItemLeaf(items, prefix, 0, key, v)
    case _ => false
  }

  /** A leaf reached through the member `m` of a dict. */
  predicate MemberLeaf(m: Member, prefix: string, key: string, v: Json)
    decreases m, 0
  {
    var at := Child(prefix, m.key);
    match m.value
    case JObj(_) => Leaf(m.value, at, key, v)
    case JArr(items) => SomeItemLeaf(items, at, 0, key, v)
    case _ => key == at && v == m.value
  }

  /** A leaf reached through the list entry `item` at path `at`. */
  predicate ItemLeaf(item: Json, at: string, key: string, v: Json)
    decreases item, 2
  {
    if item.JObj? then Leaf(item, at, key, v) else key == at && v == item
  }

  /** The assignments are exactly the leaves. */
  lemma FlattenIsLeaves(data: Json, prefix: string, key: string, v: Json)
    ensures Member(key, v) in Flatten(data, prefix) <==> Leaf(data, prefix, key, v)
    decreases data, 1
  {
    match data
    case JObj(ms) => MembersAreLeaves(ms, prefix, key, v);
    case JArr(items) =>
      ItemsAreLeaves(items, prefix, 0, key, v);
    case _ =>
  }

  lemma HeadIsLeaves(m: Member, prefix: string, key: string, v: Json)
    ensures var at := Child(prefix, m.key);
            var head := match m.value
                        case JObj(_) => Flatten(m.value, at)
                        case JArr(items) => FlattenItems(items, at, 0)
                        case _ => [Member(at, m.value)];
            Member(key, v) in head <==> MemberLeaf(m, prefix, key, v)
    decreases m, 0
  {
    var at := Child(prefix, m.key);
    match m.value
    case JObj(_) => FlattenIsLeaves(m.value, at, key, v);
    case JArr(items) => ItemsAreLeaves(items, at, 0, key, v);
    case _ =>
  }

  lemma {:induction false} MembersAreLeaves(ms: seq<Member>, prefix: string, key: string, v: Json)
    ensures Member(key, v) in FlattenMembers(ms, prefix) <==> exists k :: 0 <= k < |ms| && MemberLeaf(ms[k], prefix, key, v)
    decreases ms
  {
    if ms != [] {
      HeadIsLeaves(ms[0], prefix, key, v);
      MembersAreLeaves(ms[1..], prefix, key, v);
      if exists k :: 0 <= k < |ms| && MemberLeaf(ms[k], prefix, key, v) {
        var k :| 0 <= k < |ms| && MemberLeaf(ms[k], prefix, key, v);
        if k > 0 {
          assert ms[1..][k - 1] == ms[k];
        }
      }
      if exists k :: 0 <= k < |ms[1..]| && MemberLeaf(ms[1..][k], prefix, key, v) {
        var k :| 0 <= k < |ms[1..]| && MemberLeaf(ms[1..][k], prefix, key, v);
        assert ms[k + 1] == ms[1..][k];
      }
    }
  }

  lemma ItemHeadIsLeaves(item: Json, at: string, key: string, v: Json)
    ensures Member(key, v) in (if item.JObj? then Flatten(item, at) else [Member(at, item)]) <==> ItemLeaf(item, at, key, v)
    decreases item, 2
  {
    if item.JObj? {
      FlattenIsLeaves(item, at, key, v);
    }
  }

  /** Some entry of `items`, counted from position `i`, has the leaf. */
  predicate SomeItemLeaf(items: seq<Json>, at: string, i: nat, key: string, v: Json) {
    exists j :: 0 <= j < |items| && ItemLeaf(items[j], Indexed(at, i + j), key, v)
  }

  lemma SomeItemLeafSplit(items: seq<Json>, at: string, i: nat, key: string, v: Json)
    requires items != []
    ensures SomeItemLeaf(items, at, i, key, v)
            <==> ItemLeaf(items[0], Indexed(at, i), key, v) || SomeItemLeaf(items[1..], at, i + 1, key, v)
  {
    if SomeItemLeaf(items, at, i, key, v) {
      var j :| 0 <= j < |items| && ItemLeaf(items[j], Indexed(at, i + j), key, v);
      if j > 0 {
        ShiftItemLeaf(items, at, i, j - 1, key, v);
      }
    }
    if SomeItemLeaf(items[1..], at, i + 1, key, v) {
      var j :| 0 <= j < |items[1..]| && ItemLeaf(items[1..][j], Indexed(at, i + 1 + j), key, v);
      ShiftItemLeaf(items, at, i, j, key, v);
    }
  }

  lemma ShiftItemLeaf(items: seq<Json>, at: string, i: nat, j: nat, key: string, v: Json)
    requires j + 1 < |items|
    ensures ItemLeaf(items[1..][j], Indexed(at, i + 1 + j), key, v) <==> ItemLeaf(items[j + 1], Indexed(at, i + (j + 1)), key, v)
  {
    assert items[1..][j] == items[j + 1] && i + 1 + j == i + (j + 1);
  }

  lemma {:induction false} ItemsAreLeaves(items: seq<Json>, at: string, i: nat, key: string, v: Json)
    ensures Member(key, v) in FlattenItems(items, at, i) <==> SomeItemLeaf(items, at, i, key, v)
    decreases items
  {
    if items != [] {
      var a := Indexed(at, i);
      var head := if items[0].JObj? then Flatten(items[0], a) else [Member(a, items[0])];
      var tail := FlattenItems(items[1..], at, i + 1);
      assert FlattenItems(items, at, i) == head + tail;
      ItemHeadIsLeaves(items[0], a, key, v);
      ItemsAreLeaves(items[1..], at, i + 1, key, v);
      SomeItemLeafSplit(items, at, i, key, v);
    }
  }

  /** `flatten_lodgify_json(data, prefix)`: a key for every leaf of
      `data`, holding a value of a leaf at that path, and no other key. */
  function FlattenLodgifyJson(data: Json, prefix: string): (r: map<string, Json>)
    ensures forall key :: key in r ==> !r[key].JObj?
    ensures prefix != "" ==> forall key :: key in r ==> StartsWith(key, prefix)
    ensures forall key :: key in r ==> Leaf(data, prefix, key, r[key])
    ensures forall key, v :: Leaf(data, prefix, key, v) ==> key in r
  {
    var asg := Flatten(data, prefix);
    var r := ToMap(asg);
    forall key | key in r ensures Leaf(data, prefix, key, r[key]) {
      var k :| 0 <= k < |asg| && asg[k].key == key && r[key] == asg[k].value;
      assert asg[k] == Member(key, r[key]);
      FlattenIsLeaves(data, prefix, key, r[key]);
    }
    forall key, v | Leaf(data, prefix, key, v) ensures key in r {
      FlattenIsLeaves(data, prefix, key, v);
      var k :| 0 <= k < |asg| && asg[k] == Member(key, v);
    }
    r
  }

  /** When two leaves share a path, the later assignment overwrites the
      earlier one: a key holds the value of its last assignment. */
  lemma FlattenLastAssignmentWins(data: Json, prefix: string, k: nat)
    requires k < |Flatten(data, prefix)|
    requires forall j :: k < j < |Flatten(data, prefix)| ==> Flatten(data, prefix)[j].key != Flatten(data, prefix)[k].key
    ensures FlattenLodgifyJson(data, prefix)[Flatten(data, prefix)[k].key] == Flatten(data, prefix)[k].value
  {
    LastAssignmentWins(Flatten(data, prefix), k);
  }

  /** `{"a.b": 1, "a": {"b": 2}}` flattens to `{"a.b": 2}`: the nested
      leaf, assigned later, wins over the dotted key. */
  lemma DottedKeyOverwritten()
    ensures FlattenLodgifyJson(JObj([Member("a.b", JNum(1.0)), Member("a", JObj([Member("b", JNum(2.0))]))]), "")
            == map["a.b" := JNum(2.0)]
  {
    var inner := [Member("b", JNum(2.0))];
    var ms := [Member("a.b", JNum(1.0)), Member("a", JObj(inner))];
    assert Child("a", "b") == "a.b";
    assert FlattenMembers(inner, "a") == [Member("a.b", JNum(2.0))];
    assert FlattenMembers(ms[1..], "") == [Member("a.b", JNum(2.0))];
    assert Flatten(JObj(ms), "") == [Member("a.b", JNum(1.0)), Member("a.b", JNum(2.0))];
  }

  /** A dict whose values are neither dicts nor lists flattens to
      itself. */
  predicate Scalar(v: Json) {
    !v.JObj? && !v.JArr?
  }

  lemma {:induction false} FlatMembersStay(ms: seq<Member>)
    requires forall k :: 0 <= k < |ms| ==> Scalar(ms[k].value)
    ensures FlattenMembers(ms, "") == ms
  {
    if ms != [] {
      FlatMembersStay(ms[1..]);
    }
  }

  /** Keys held once each. */
  predicate DistinctKeys(ms: seq<Member>) {
    forall i, j :: 0 <= i < j < |ms| ==> ms[i].key != ms[j].key
  }

  /** So the dict `flatten_lodgify_json` returns for a flat dict is that
      dict. */
  lemma FlatDictStays(ms: seq<Member>)
    requires DistinctKeys(ms)
    requires forall k :: 0 <= k < |ms| ==> Scalar(ms[k].value)
    ensures forall k :: 0 <= k < |ms| ==>
      (ms[k].key in FlattenLodgifyJson(JObj(ms), "") && FlattenLodgifyJson(JObj(ms), "")[ms[k].key] == ms[k].value)
    ensures forall key :: key in FlattenLodgifyJson(JObj(ms), "") ==> exists k :: 0 <= k < |ms| && ms[k].key == key
  {
    FlatMembersStay(ms);
    assert Flatten(JObj(ms), "") == ms;
    var r := ToMap(ms);
    forall k | 0 <= k < |ms|
      ensures ms[k].key in r && r[ms[k].key] == ms[k].value
    {
      LastAssignmentWins(ms, k);
    }
  }

  /** A list of plain values is assigned entry by entry, under
      `key[0]`, `key[1]`, ... */
  lemma {:induction false} ScalarItems(items: seq<Json>, key: string, i: nat)
    requires forall k :: 0 <= k < |items| ==> !items[k].JObj?
    ensures |FlattenItems(items, key, i)| == |items|
    ensures forall k :: 0 <= k < |items| ==> FlattenItems(items, key, i)[k] == Member(Indexed(key, i + k), items[k])
  {
    if items != [] {
      ScalarItems(items[1..], key, i + 1);
    }
  }

  /** An empty dict under a key leaves no trace. */
  lemma EmptyDictVanishes(key: string, rest: seq<Member>, prefix: string)
    ensures FlattenMembers([Member(key, JObj([]))] + rest, prefix) == FlattenMembers(rest, prefix)
  {
    assert ([Member(key, JObj([]))] + rest)[1..] == rest;
  }

  /** The documented example, with the key names as parameters:
      `{"guest": {"name": n, "contact": {"email": e}}}` becomes
      `{"guest.name": n, "guest.contact.email": e}`. */
  lemma NestedExample(guest: string, name: string, contact: string, email: string, n: Json, e: Json)
    requires guest != "" && Scalar(n) && Scalar(e)
    ensures Flatten(JObj([Member(guest, JObj([Member(name, n), Member(contact, JObj([Member(email, e)]))]))]), "")
            == [Member(guest + "." + name, n), Member(guest + "." + contact + "." + email, e)]
  {
    var inner := [Member(email, e)];
    var g := [Member(name, n), Member(contact, JObj(inner))];
    var c := guest + "." + contact;
    assert FlattenMembers(inner, c) == [Member(c + "." + email, e)] by {
      assert inner[1..] == [];
    }
    assert FlattenMembers(g[1..], guest) == [Member(c + "." + email, e)] by {
      assert g[1..][1..] == [];
    }
    assert FlattenMembers(g, guest) == [Member(guest + "." + name, n), Member(c + "." + email, e)];
    assert [Member(guest, JObj(g))][1..] == [];
    assert Child("", guest) == guest;
    assert FlattenMembers([Member(guest, JObj(g))], "") == Flatten(JObj(g), guest) + [];
    assert c + "." + email == guest + "." + contact + "." + email;
  }
}

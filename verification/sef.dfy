/** `SEFService.validate_guest_data` and the validation-first order of
    `SEFService.register_guest`. A guest record is a row of text cells; an
    absent key and an empty cell are both falsy. The PDF generation and
    upload that follow a successful validation are a parameter. */
module Sef {
  import opened Base
  import opened Calendar
  import opened Strptime
  import opened StrptimeFacts

  const RequiredFields: seq<string> := ["full_name", "passport", "country", "dob", "check_in", "check_out"]
  const DateFields: seq<string> := ["dob", "check_in", "check_out"]

  /** `_validate_date_format(s)`: `strptime(s, '%Y-%m-%d')` succeeds.
      Unpadded months and days, such as `2025-1-5`, pass. */
  predicate WellFormed(s: string) {
    ParseDate(s, "%Y-%m-%d").Some?
  }

  /** One problem `validate_guest_data` reports. */
  datatype Issue =
    | Missing(field: string)               // absent or empty required field
    | BadDate(field: string, got: string)  // a date field that is not YYYY-MM-DD
    | StayOrder                            // check_out not after check_in

  function Message(i: Issue): string {
    match i
    case Missing(f) => "Missing required field: " + f
    case BadDate(f, v) => "Invalid date format for " + f + ": expected YYYY-MM-DD, got '" + v + "'"
    case StayOrder => "check_out date must be after check_in date"
  }

  function Messages(issues: seq<Issue>): (r: seq<string>)
    ensures |r| == |issues|
    ensures forall k :: 0 <= k < |r| ==> r[k] == Message(issues[k])
  {
    if issues == [] then [] else [Message(issues[0])] + Messages(issues[1..])
  }

  // ---------------------------------------------------------------------
  // The three checks

  /** The first loop: each listed field that is absent or empty. */
  function MissingIssues(g: Row, fields: seq<string>): (r: seq<Issue>)
    ensures forall i :: i in r <==> i.Missing? && i.field in fields && Raw(g, i.field) == ""
  {
    if fields == [] then []
    else (if Raw(g, fields[0]) == "" then [Missing(fields[0])] else []) + MissingIssues(g, fields[1..])
  }

  /** The second loop: each listed field that is present and non-empty
      but whose trimmed text is not a YYYY-MM-DD date. */
  function DateIssues(g: Row, fields: seq<string>): (r: seq<Issue>)
    ensures forall i :: i in r <==>
      i.BadDate? && i.field in fields && Raw(g, i.field) != ""
      && i.got == Strip(Raw(g, i.field)) && !WellFormed(i.got)
  {
    if fields == [] then []
    else
      var v := Strip(Raw(g, fields[0]));
      (if Raw(g, fields[0]) != "" && !WellFormed(v) then [BadDate(fields[0], v)] else [])
      + DateIssues(g, fields[1..])
  }

  /** The third check: both stay dates present and well-formed as stored
      (untrimmed), and check-out on or before check-in. */
  predicate StayReversed(g: Row) {
    var ci := Raw(g, "check_in");
    var co := Raw(g, "check_out");
    ci != "" && co != "" && WellFormed(ci) && WellFormed(co)
    && Ordinal(ParseDate(co, "%Y-%m-%d").value) <= Ordinal(ParseDate(ci, "%Y-%m-%d").value)
  }

  /** Which of the three checks reports an issue. */
  function Check(i: Issue): nat {
    match i
    case Missing(_) => 0
    case BadDate(_, _) => 1
    case StayOrder => 2
  }

  /** Every problem, in the order the messages are appended. */
  function Issues(g: Row): (r: seq<Issue>)
    ensures forall f :: Missing(f) in r <==> f in RequiredFields && Raw(g, f) == ""
    ensures forall f, v :: BadDate(f, v) in r <==>
      f in DateFields && Raw(g, f) != "" && v == Strip(Raw(g, f)) && !WellFormed(v)
    ensures StayOrder in r <==> StayReversed(g)
  {
    MissingIssues(g, RequiredFields) + DateIssues(g, DateFields)
    + (if StayReversed(g) then [StayOrder] else [])
  }

  /** The issues come check by check: the missing fields first, then the
      bad dates, then the reversed stay. */
  lemma IssuesInCheckOrder(g: Row)
    ensures forall a, b :: 0 <= a < b < |Issues(g)| ==> Check(Issues(g)[a]) <= Check(Issues(g)[b])
  {
    var m := MissingIssues(g, RequiredFields);
    var d := DateIssues(g, DateFields);
    var t: seq<Issue> := if StayReversed(g) then [StayOrder] else [];
    MissingAreFirst(g, RequiredFields);
    DatesAreSecond(g, DateFields);
    ChecksInOrder(m, d, t);
  }

  lemma {:induction false} MissingAreFirst(g: Row, fields: seq<string>)
    ensures forall a :: 0 <= a < |MissingIssues(g, fields)| ==> Check(MissingIssues(g, fields)[a]) == 0
  {
    if fields != [] {
      MissingAreFirst(g, fields[1..]);
    }
  }

  lemma {:induction false} DatesAreSecond(g: Row, fields: seq<string>)
    ensures forall a :: 0 <= a < |DateIssues(g, fields)| ==> Check(DateIssues(g, fields)[a]) == 1
  {
    if fields != [] {
      DatesAreSecond(g, fields[1..]);
    }
  }

  lemma ChecksInOrder(m: seq<Issue>, d: seq<Issue>, t: seq<Issue>)
    requires forall a :: 0 <= a < |m| ==> Check(m[a]) == 0
    requires forall a :: 0 <= a < |d| ==> Check(d[a]) == 1
    requires forall a :: 0 <= a < |t| ==> Check(t[a]) == 2
    ensures forall a, b :: 0 <= a < b < |m + d + t| ==> Check((m + d + t)[a]) <= Check((m + d + t)[b])
  {
    var r := m + d + t;
    forall a | 0 <= a < |r| ensures Check(r[a]) == if a < |m| then 0 else if a < |m| + |d| then 1 else 2 {
      if a < |m| {
        assert r[a] == m[a];
      } else if a < |m| + |d| {
        assert r[a] == d[a - |m|];
      } else {
        assert r[a] == t[a - |m| - |d|];
      }
    }
  }

  /** A record with every required field, well-formed dates and a stay
      that ends after it starts. */
  predicate Acceptable(g: Row) {
    && (forall f :: f in RequiredFields ==> Raw(g, f) != "")
    && (forall f :: f in DateFields ==> WellFormed(Strip(Raw(g, f))))
    && !StayReversed(g)
  }

  // ---------------------------------------------------------------------
  // validate_guest_data and register_guest

  /** `validate_guest_data(g)`: `(True, [])` for an acceptable record,
      otherwise `(False, errors)` with one message per problem. */
  function ValidateGuestData(g: Row): (r: (bool, seq<string>))
    ensures r.0 <==> r.1 == []
    ensures r.0 <==> Acceptable(g)
    ensures |r.1| == |Issues(g)|
    ensures forall k :: 0 <= k < |r.1| ==> r.1[k] == Message(Issues(g)[k])
  {
    var issues := Issues(g);
    AcceptableIffNoIssues(g);
    if issues != [] then (false, Messages(issues)) else (true, [])
  }

  lemma AcceptableIffNoIssues(g: Row)
    ensures Acceptable(g) <==> Issues(g) == []
  {
    MissingNone(g, RequiredFields);
    DateNone(g, DateFields);
    DatesAreRequired();
  }

  lemma DatesAreRequired()
    ensures forall f :: f in DateFields ==> f in RequiredFields
  {
    assert DateFields == RequiredFields[3..];
  }

  lemma {:induction false} MissingNone(g: Row, fields: seq<string>)
    ensures MissingIssues(g, fields) == [] <==> forall f :: f in fields ==> Raw(g, f) != ""
  {
    if fields != [] {
      MissingNone(g, fields[1..]);
      assert forall f :: f in fields <==> f == fields[0] || f in fields[1..];
    }
  }

  lemma {:induction false} DateNone(g: Row, fields: seq<string>)
    ensures DateIssues(g, fields) == [] <==>
      forall f :: f in fields ==> Raw(g, f) == "" || WellFormed(Strip(Raw(g, f)))
  {
    if fields != [] {
      DateNone(g, fields[1..]);
      assert forall f :: f in fields <==> f == fields[0] || f in fields[1..];
    }
  }

  /** The issue list of a record lacking every field in `fields`. */
  function AllMissing(fields: seq<string>): (r: seq<Issue>)
    ensures |r| == |fields|
    ensures forall k :: 0 <= k < |r| ==> r[k] == Missing(fields[k])
  {
    if fields == [] then [] else [Missing(fields[0])] + AllMissing(fields[1..])
  }

  lemma {:induction false} MissingAll(g: Row, fields: seq<string>)
    requires forall f :: f in fields ==> Raw(g, f) == ""
    ensures MissingIssues(g, fields) == AllMissing(fields)
  {
    if fields != [] {
      assert fields[0] in fields;
      assert forall f :: f in fields[1..] ==> f in fields;
      MissingAll(g, fields[1..]);
    }
  }

  /** `register_guest(g)`: validation comes first, and an invalid record
      raises `ValueError("Invalid guest data: ...")` before `generate`
      (the PDF generation and upload) is reached. */
  function RegisterGuest<T>(g: Row, generate: Row -> T): (r: Result<T>)
    ensures r.Ok? <==> Acceptable(g)
    ensures r.Ok? ==> r.value == generate(g)
    ensures r.Err? ==> r.msg == "Invalid guest data: " + Join(", ", ValidateGuestData(g).1)
  {
    var (valid, errors) := ValidateGuestData(g);
    if !valid then Err("Invalid guest data: " + Join(", ", errors))
    else Ok(generate(g))
  }

  /** An invalid record fails the same way whatever the PDF step would
      have done. */
  lemma InvalidNeverGenerates<T>(g: Row, gen1: Row -> T, gen2: Row -> T)
    requires !Acceptable(g)
    ensures RegisterGuest(g, gen1) == RegisterGuest(g, gen2)
  {
  }

  // ---------------------------------------------------------------------
  // Scenarios

  /** A record whose required fields are all filled, with dates written
      by `strftime('%Y-%m-%d')` and a stay of at least one night, is
      accepted. */
  lemma IsoGuestAccepted(g: Row, dob: Date, checkIn: Date, checkOut: Date)
    requires Valid(dob) && Valid(checkIn) && Valid(checkOut)
    requires forall f :: f in RequiredFields ==> Raw(g, f) != ""
    requires Raw(g, "dob") == Iso(dob) && Raw(g, "check_in") == Iso(checkIn) && Raw(g, "check_out") == Iso(checkOut)
    requires Before(checkIn, checkOut)
    ensures ValidateGuestData(g) == (true, [])
  {
    IsoDateAccepted(dob);
    IsoDateAccepted(checkIn);
    IsoDateAccepted(checkOut);
    OrdinalOrder(checkIn, checkOut);
    assert !StayReversed(g);
    assert Acceptable(g);
  }

  /** The same record leaving on its arrival day is reported for that,
      and only that. */
  lemma SameDayStayRejected(g: Row, dob: Date, day: Date)
    requires Valid(dob) && Valid(day)
    requires forall f :: f in RequiredFields ==> Raw(g, f) != ""
    requires Raw(g, "dob") == Iso(dob) && Raw(g, "check_in") == Iso(day) && Raw(g, "check_out") == Iso(day)
    ensures var r := ValidateGuestData(g); !r.0 && |r.1| == 1 && r.1[0] == Message(StayOrder)
  {
    IsoDateAccepted(dob);
    IsoDateAccepted(day);
    assert StayReversed(g);
    FieldsClean(g);
    assert Issues(g) == [] + [] + [StayOrder];
  }

  /** A record with every required field filled and every date field
      well-formed once trimmed has no missing-field or bad-date issue. */
  lemma FieldsClean(g: Row)
    requires forall f :: f in RequiredFields ==> Raw(g, f) != ""
    requires forall f :: f in DateFields ==> WellFormed(Strip(Raw(g, f)))
    ensures MissingIssues(g, RequiredFields) == [] && DateIssues(g, DateFields) == []
  {
    MissingNone(g, RequiredFields);
    DateNone(g, DateFields);
  }

  lemma IsoDateAccepted(d: Date)
    requires Valid(d)
    ensures Strip(Iso(d)) == Iso(d) && WellFormed(Iso(d))
    ensures ParseDate(Iso(d), "%Y-%m-%d") == Some(d)
  {
    var s := Iso(d);
    assert s[0] == Pad4(d.year)[0] && s[9] == Pad2(d.day)[1];
    StripOfStripped(s);
    ParseIso(d);
  }

  /** A record holding none of the six fields misses all six, in order,
      and nothing else is reported. */
  lemma EmptyRecordMissesAll(g: Row)
    requires forall f :: f in RequiredFields ==> f !in g
    ensures var r := ValidateGuestData(g);
      && !r.0 && |r.1| == 6
      && forall k :: 0 <= k < 6 ==> r.1[k] == Message(Missing(RequiredFields[k]))
  {
    MissingAll(g, RequiredFields);
    DateNone(g, DateFields);
    assert !StayReversed(g);
    assert Issues(g) == AllMissing(RequiredFields) + [] + [];
  }
}

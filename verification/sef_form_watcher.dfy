/** `SEFFormWatcher`: finds the columns of the guest form by their
    aliases, finds the last answered row, reads a row into a guest record
    and walks the rows not yet processed. The Sheets API read is the
    parameter `read` (A1 range to cell lists); generating the PDF for a
    row is the parameter `process`. */
module SefFormWatcher {
  import opened Base
  import opened Calendar
  import opened Strptime
  import opened DateUtils

  // ---------------------------------------------------------------------
  // Column aliases

  const FormSheetName: string := "Form_Responses"

  /** The keys of `COLUMN_ALIASES`. */
  datatype Field =
    | CheckIn | CheckInTime | CheckOut | FullName | DateOfBirth | Nationality
    | IdType | IdNumber | CountryIssue | CountryResidence | TouristTax | Allergies

  /** The dictionary key of a field. */
  function Key(f: Field): string {
    match f
    case CheckIn => "check_in"
    case CheckInTime => "check_in_time"
    case CheckOut => "check_out"
    case FullName => "full_name"
    case DateOfBirth => "date_of_birth"
    case Nationality => "nationality"
    case IdType => "id_type"
    case IdNumber => "id_number"
    case CountryIssue => "country_issue"
    case CountryResidence => "country_residence"
    case TouristTax => "tourist_tax"
    case Allergies => "allergies"
  }

  /** `COLUMN_ALIASES[field]`: the form titles a field may appear under,
      most specific first. */
  function Aliases(f: Field): seq<string> {
    match f
    case CheckIn => ["check-in date", "check in date", "arrival date"]
    case CheckInTime => ["what time do you would like to do the check-in?",
                         "what time do you would like to do the check in?", "check-in time", "check in time"]
    case CheckOut => ["check-out date", "checkout date", "departure date"]
    case FullName => ["full name", "name"]
    case DateOfBirth => ["date of birth", "dob"]
    case Nationality => ["nationality"]
    case IdType => ["type of identification card", "document type"]
    case IdNumber => ["identification card number", "document number"]
    case CountryIssue => ["country of issue of the identification card"]
    case CountryResidence => ["country of residence"]
    case TouristTax => ["tourist tax"]
    case Allergies => ["do you have any allergies?", "allergies"]
  }

  /** The fields `_extract_row_data` fills, in order: every field but the
      tourist tax, which is computed later. */
  const ExpectedFields: seq<Field> := [
    CheckIn, CheckInTime, CheckOut, FullName, DateOfBirth, Nationality,
    IdType, IdNumber, CountryIssue, CountryResidence, Allergies
  ]

  /** The fields read as dates; `check_in_time` is a time and is not one. */
  predicate IsDateField(f: Field) {
    f == CheckIn || f == CheckOut || f == DateOfBirth
  }

  // ---------------------------------------------------------------------
  // _get_column_index and _find_column_by_aliases

  /** A header cell names the column: non-empty and equal to the name
      once both are trimmed and lower-cased. */
  predicate Names(header: string, name: string) {
    header != "" && Lower(Strip(header)) == Lower(Strip(name))
  }

  /** The first position from `i` on whose element satisfies `p`. */
  function FirstFrom<T>(xs: seq<T>, p: T -> bool, i: nat): (r: Option<nat>)
    requires i <= |xs|
    ensures r.Some? ==> i <= r.value < |xs| && p(xs[r.value])
                        && forall j :: i <= j < r.value ==> !p(xs[j])
    ensures r.None? ==> forall j :: i <= j < |xs| ==> !p(xs[j])
    decreases |xs| - i
  {
    if i == |xs| then None
    else if p(xs[i]) then Some(i)
    else FirstFrom(xs, p, i + 1)
  }

  /** `_get_column_index(header_row, name)`: the first column the name
      matches, or `None`. */
  function GetColumnIndex(headers: seq<string>, name: string): (r: Option<nat>)
    ensures r.Some? ==> r.value < |headers| && Names(headers[r.value], name)
                        && forall j :: 0 <= j < r.value ==> !Names(headers[j], name)
    ensures r.None? ==> forall j :: 0 <= j < |headers| ==> !Names(headers[j], name)
  {
    FirstFrom(headers, (h: string) => Names(h, name), 0)
  }

  /** Names that agree once trimmed and lower-cased find the same column. */
  lemma LookupIgnoresCaseAndSpaces(headers: seq<string>, a: string, b: string)
    requires Lower(Strip(a)) == Lower(Strip(b))
    ensures GetColumnIndex(headers, a) == GetColumnIndex(headers, b)
  {
    assert forall j :: 0 <= j < |headers| ==> (Names(headers[j], a) <==> Names(headers[j], b));
  }

  /** The position in `aliases`, from `i` on, of the first alias that
      matches some column. */
  function AliasIndexFrom(headers: seq<string>, aliases: seq<string>, i: nat): (r: Option<nat>)
    requires i <= |aliases|
    ensures r.Some? ==> i <= r.value < |aliases| && HasColumn(headers, aliases[r.value])
                        && forall j :: i <= j < r.value ==> !HasColumn(headers, aliases[j])
    ensures r.None? ==> forall j :: i <= j < |aliases| ==> !HasColumn(headers, aliases[j])
  {
    FirstFrom(aliases, (a: string) => HasColumn(headers, a), i)
  }

  /** Some column carries the name `a`. */
  predicate HasColumn(headers: seq<string>, a: string) {
    GetColumnIndex(headers, a).Some?
  }

  /** `_find_column_by_aliases(header_row, aliases)`: the column of the
      earliest alias that matches any column. */
  function FindColumnByAliases(headers: seq<string>, aliases: seq<string>): (r: Option<nat>)
    ensures r.None? <==> forall k :: 0 <= k < |aliases| ==> GetColumnIndex(headers, aliases[k]).None?
    ensures r.Some? ==> var k := AliasIndexFrom(headers, aliases, 0).value;
      && GetColumnIndex(headers, aliases[k]) == r
      && forall j :: 0 <= j < k ==> GetColumnIndex(headers, aliases[j]).None?
    ensures r.Some? ==> r.value < |headers|
  {
    match AliasIndexFrom(headers, aliases, 0)
    case None => None
    case Some(k) => GetColumnIndex(headers, aliases[k])
  }

  /** `_find_full_name_column`. */
  function FullNameColumn(headers: seq<string>): Option<nat> {
    FindColumnByAliases(headers, Aliases(FullName))
  }

  // ---------------------------------------------------------------------
  // index_to_column_letter

  /** The letter for a digit 0..25 of the bijective base-26 numeration. */
  function Letter(k: nat): char
    requires k < 26
  {
    ('A' as int + k) as char
  }

  predicate IsColumnLetter(c: char) {
    'A' <= c <= 'Z'
  }

  /** The spreadsheet name of the 1-based column `n`: bijective base 26
      with digits A..Z (1 is A, 26 is Z, 27 is AA). */
  function ColumnName(n: nat): (r: string)
    ensures forall i :: 0 <= i < |r| ==> IsColumnLetter(r[i])
    ensures n > 0 <==> r != []
  {
    if n == 0 then "" else ColumnName((n - 1) / 26) + [Letter((n - 1) % 26)]
  }

  /** The 1-based column a name denotes: the inverse of `ColumnName`. */
  function ColumnNumber(s: string): nat
    requires forall i :: 0 <= i < |s| ==> IsColumnLetter(s[i])
  {
    if s == [] then 0
    else
      var c := s[|s| - 1];
      assert IsColumnLetter(c);
      ColumnNumber(s[..|s| - 1]) * 26 + (c as int - 'A' as int + 1)
  }

  /** `index_to_column_letter(idx)`: the letters of the 0-based column. */
  method IndexToColumnLetter(idx: nat) returns (result: string)
    ensures result == ColumnName(idx + 1)
    ensures result != [] && ColumnNumber(result) == idx + 1
  {
    result := "";
    var n: nat := idx + 1;
    while n > 0
      invariant ColumnName(n) + result == ColumnName(idx + 1)
      decreases n
    {
      var c := Letter((n - 1) % 26);
      assert ColumnName(n) == ColumnName((n - 1) / 26) + [c];
      assert ColumnName(n) + result == ColumnName((n - 1) / 26) + ([c] + result);
      result := [c] + result;
      n := (n - 1) / 26;
    }
    assert ColumnName(0) == "";
    NameThenNumber(idx + 1);
  }

  lemma {:induction false} NameThenNumber(n: nat)
    ensures ColumnNumber(ColumnName(n)) == n
  {
    if n > 0 {
      var s := ColumnName(n);
      NameThenNumber((n - 1) / 26);
      assert s[..|s| - 1] == ColumnName((n - 1) / 26);
    }
  }

  lemma {:induction false} NumberThenName(s: string)
    requires forall i :: 0 <= i < |s| ==> IsColumnLetter(s[i])
    ensures ColumnName(ColumnNumber(s)) == s
  {
    if s != [] {
      var p := s[..|s| - 1];
      var d := s[|s| - 1] as int - 'A' as int;
      NumberThenName(p);
      var n := ColumnNumber(s);
      assert n == ColumnNumber(p) * 26 + d + 1;
      assert (n - 1) / 26 == ColumnNumber(p) && (n - 1) % 26 == d;
      assert Letter(d) == s[|s| - 1];
      assert s == p + [s[|s| - 1]];
    }
  }

  lemma ColumnLetterExamples()
    ensures ColumnName(0 + 1) == "A"
    ensures ColumnName(25 + 1) == "Z"
    ensures ColumnName(26 + 1) == "AA"
    ensures ColumnName(701 + 1) == "ZZ"
    ensures ColumnName(702 + 1) == "AAA"
  {
    assert ColumnName(1) == ColumnName(0) + [Letter(0)];
    assert ColumnName(26) == ColumnName(0) + [Letter(25)];
    assert ColumnName(27) == ColumnName(1) + [Letter(0)];
    assert ColumnName(702) == ColumnName(26) + [Letter(25)];
    assert ColumnName(703) == ColumnName(27) + [Letter(0)];
  }

  // ---------------------------------------------------------------------
  // _get_last_filled_row

  /** A cell list of the full-name column read back from the sheet: a
      non-blank first cell. */
  predicate Filled(cells: seq<string>) {
    |cells| > 0 && cells[0] != "" && Strip(cells[0]) != ""
  }

  /** `{FORM_SHEET_NAME}!{col}2:{col}`: the column below the header. */
  function ColumnRange(col: string): string {
    FormSheetName + "!" + col + "2:" + col
  }

  /** `_get_last_filled_row(header_row)`: the 1-based sheet row of the last
      answered full name (data start on row 2), or 1 when there is none. */
  method LastFilledRow(headers: seq<string>, read: string -> seq<seq<string>>) returns (r: Result<nat>)
    ensures FullNameColumn(headers).None? ==> r == Err("Column for 'full name' not found in sheet")
    ensures FullNameColumn(headers).Some? ==>
      r.Ok? && LastFilled(read(ColumnRange(ColumnName(FullNameColumn(headers).value + 1))), r.value)
  {
    var col := FullNameColumn(headers);
    if col.None? {
      return Err("Column for 'full name' not found in sheet");
    }
    var letter := IndexToColumnLetter(col.value);
    var last := LastFilledIn(read(ColumnRange(letter)));
    return Ok(last);
  }

  /** `last` is the sheet row of the last filled cell of `values` (which
      start on row 2), or 1 when no cell is filled. */
  predicate LastFilled(values: seq<seq<string>>, last: int) {
    && 1 <= last <= |values| + 1
    && (last == 1 <==> forall k :: 0 <= k < |values| ==> !Filled(values[k]))
    && (last > 1 ==> Filled(values[last - 2]))
    && forall k :: last - 1 <= k < |values| ==> !Filled(values[k])
  }

  /** The scan of `_get_last_filled_row` over the column's cells. */
  method LastFilledIn(values: seq<seq<string>>) returns (last: nat)
    ensures LastFilled(values, last)
  {
    if values == [] {
      return 1;
    }
    last := 1;
    for i := 0 to |values|
      invariant 1 <= last <= i + 1
      invariant last == 1 <==> forall k :: 0 <= k < i ==> !Filled(values[k])
      invariant last > 1 ==> Filled(values[last - 2])
      invariant forall k :: last - 1 <= k < i ==> !Filled(values[k])
    {
      if Filled(values[i]) {
        last := i + 2;
      }
    }
  }

  // ---------------------------------------------------------------------
  // _extract_row_data

  /** The value `_extract_row_data` stores for one field: "" when the field
      has no column or the row is too short, the trimmed cell otherwise,
      put through `normalize_date_safe` for the date fields. */
  function FieldValue(headers: seq<string>, data: seq<string>, f: Field): (r: string)
    ensures match FindColumnByAliases(headers, Aliases(f))
            case None => r == ""
            case Some(i) => if i < |data| then
                              if IsDateField(f) then r == NormalizeDateSafe(VStr(Strip(data[i])))
                              else r == Strip(data[i])
                            else r == ""
    ensures IsDateField(f) ==> r == "" || exists d :: Valid(d) && r == Iso(d)
    ensures !IsDateField(f) ==> Strip(r) == r
  {
    match FindColumnByAliases(headers, Aliases(f))
    case None => ""
    case Some(i) =>
      if i < |data| then
        var raw := Strip(data[i]);
        if IsDateField(f) then NormalizeDateSafe(VStr(raw))
        else
          StripTwice(data[i]);
          raw
      else ""
  }

  lemma StripTwice(s: string)
    ensures Strip(Strip(s)) == Strip(s)
  {
    StripOfStripped(Strip(s));
  }

  /** A guest record as `_extract_row_data` builds it: field to text. */
  type GuestRecord = map<Field, string>

  /** `_extract_row_data(header_row, data_row)`: every expected field, or
      `None` when the full name comes out empty. */
  function ExtractRowData(headers: seq<string>, data: seq<string>): (r: Option<GuestRecord>)
    ensures r.None? <==> FieldValue(headers, data, FullName) == ""
    ensures r.Some? ==> (forall f :: f in r.value <==> f in ExpectedFields)
                        && (forall f :: f in ExpectedFields ==> r.value[f] == FieldValue(headers, data, f))
                        && r.value[FullName] != ""
  {
    var record := map f | f in ExpectedFields :: FieldValue(headers, data, f);
    if record[FullName] == "" then None else Some(record)
  }

  /** A filled full-name cell makes the row a guest record under the
      trimmed name. */
  lemma NamedRowIsGuest(headers: seq<string>, data: seq<string>)
    requires FullNameColumn(headers).Some?
    requires FullNameColumn(headers).value < |data| && !Blank(data[FullNameColumn(headers).value])
    ensures ExtractRowData(headers, data).Some?
    ensures ExtractRowData(headers, data).value[FullName] == Strip(data[FullNameColumn(headers).value])
  {
    var i := FullNameColumn(headers).value;
    StripEmptyIffBlank(data[i]);
    assert FieldValue(headers, data, FullName) == Strip(data[i]);
  }

  // ---------------------------------------------------------------------
  // check_for_new_entries

  /** The sheet rows `first..last`, in order. */
  function RowsBetween(first: int, last: int): (r: seq<int>)
    ensures |r| == if last < first then 0 else last - first + 1
    ensures forall k :: 0 <= k < |r| ==> r[k] == first + k
    decreases last - first
  {
    if last < first then [] else [first] + RowsBetween(first + 1, last)
  }

  /** `range(last_processed + 1, last_filled_row + 1)`. */
  function NewRows(lastProcessed: int, lastFilled: int): (r: seq<int>)
    ensures lastFilled <= lastProcessed ==> r == []
    ensures lastFilled > lastProcessed ==> |r| == lastFilled - lastProcessed && r[|r| - 1] == lastFilled
    ensures forall k :: 0 <= k < |r| ==> lastProcessed < r[k] <= lastFilled
  {
    RowsBetween(lastProcessed + 1, lastFilled)
  }

  /** How many of `rows` processing succeeds on. */
  function Successes(rows: seq<int>, process: int -> bool): (n: nat)
    ensures n <= |rows|
  {
    if rows == [] then 0 else Successes(rows[..|rows| - 1], process) + (if process(rows[|rows| - 1]) then 1 else 0)
  }

  /** The loop of `check_for_new_entries` from `first` up to `lastFilled`:
      each row is processed, and the state is saved at that row whether
      or not processing succeeded. Returns the rows visited, the last
      saved state (`lastProcessed` when nothing is saved) and the count
      of rows processed successfully. */
  method ScanRows(first: int, lastFilled: int, lastProcessed: int, process: int -> bool)
    returns (visited: seq<int>, state: int, processed: nat)
    ensures visited == RowsBetween(first, lastFilled)
    ensures state == if visited == [] then lastProcessed else lastFilled
    ensures processed == Successes(visited, process)
  {
    visited := [];
    state := lastProcessed;
    processed := 0;
    var row := first;
    while row <= lastFilled
      invariant first <= row && (row <= lastFilled + 1 || (row == first && visited == []))
      invariant visited == RowsBetween(first, row - 1)
      invariant state == if visited == [] then lastProcessed else row - 1
      invariant processed == Successes(visited, process)
      decreases lastFilled - row
    {
      var ok := process(row);
      if ok {
        processed := processed + 1;
      }
      state := row;
      RowsBetweenSnoc(first, row);
      visited := visited + [row];
      assert visited[..|visited| - 1] == RowsBetween(first, row - 1);
      row := row + 1;
    }
  }

  lemma {:induction false} RowsBetweenSnoc(first: int, last: int)
    requires first <= last
    ensures RowsBetween(first, last) == RowsBetween(first, last - 1) + [last]
  {
    var a := RowsBetween(first, last);
    var b := RowsBetween(first, last - 1) + [last];
    assert |a| == |b|;
    forall k | 0 <= k < |a| ensures a[k] == b[k] {
    }
  }

  /** `check_for_new_entries()` given the saved `last_processed_row` and
      the current last filled row: nothing when no row is new, otherwise
      every row after the saved one, with the state left at the last. */
  method CheckForNewEntries(lastProcessed: int, lastFilled: int, process: int -> bool)
    returns (visited: seq<int>, state: int, processed: nat)
    ensures visited == NewRows(lastProcessed, lastFilled)
    ensures lastFilled <= lastProcessed ==> state == lastProcessed && processed == 0
    ensures lastFilled > lastProcessed ==> state == lastFilled
    ensures processed == Successes(visited, process)
  {
    visited, state, processed := ScanRows(lastProcessed + 1, lastFilled, lastProcessed, process);
  }

  /** Starting over from the state a run leaves visits nothing. */
  lemma RerunFindsNothing(lastProcessed: int, lastFilled: int)
    ensures var state := if lastFilled > lastProcessed then lastFilled else lastProcessed;
      NewRows(state, lastFilled) == []
  {
  }

  /** Rows are never visited twice across two runs, even when the sheet
      grows in between. */
  lemma RunsAreDisjoint(lastProcessed: int, lastFilled: int, grown: int)
    requires lastFilled > lastProcessed
    ensures forall x :: x in NewRows(lastProcessed, lastFilled) ==> x !in NewRows(lastFilled, grown)
  {
  }

  // ---------------------------------------------------------------------
  // The header row from the default state

  /** Sheet row `n` as `_process_new_row` reads it (`{n}:{n}`): row 1 is
      the header itself. */
  function SheetRow(sheet: seq<seq<string>>, n: int): seq<string> {
    if 1 <= n <= |sheet| then sheet[n - 1] else []
  }

  /** With no state file `last_processed_row` defaults to 0, so the first
      run visits row 1, the header, and the header reads as a guest whose
      name is the full-name column's own title. */
  lemma HeaderProcessedAsGuest(sheet: seq<seq<string>>, lastFilled: int)
    requires sheet != [] && lastFilled >= 1
    requires FullNameColumn(sheet[0]).Some?
    ensures NewRows(0, lastFilled)[0] == 1
    ensures var header := SheetRow(sheet, 1);
      && ExtractRowData(sheet[0], header).Some?
      && ExtractRowData(sheet[0], header).value[FullName] == Strip(header[FullNameColumn(sheet[0]).value])
  {
    var headers := sheet[0];
    var i := FullNameColumn(headers).value;
    var k := AliasIndexFrom(headers, Aliases(FullName), 0).value;
    assert Names(headers[i], Aliases(FullName)[k]);
    FullNameAliasesNotBlank(k);
    HeaderTitleNotBlank(headers[i], Aliases(FullName)[k]);
    NamedRowIsGuest(headers, headers);
  }

  lemma FullNameAliasesNotBlank(k: nat)
    requires k < |Aliases(FullName)|
    ensures Strip(Aliases(FullName)[k]) != ""
  {
    var a := Aliases(FullName)[k];
    assert a[0] != ' ' && a[|a| - 1] == 'e';
    StripOfStripped(a);
  }

  lemma HeaderTitleNotBlank(h: string, alias: string)
    requires Names(h, alias) && Strip(alias) != ""
    ensures !Blank(h)
  {
    assert |Lower(Strip(h))| == |Lower(Strip(alias))|;
    StripEmptyIffBlank(h);
  }

  /** The evidently intended range: data rows only, from row 2. */
  function NewDataRows(lastProcessed: int, lastFilled: int): (r: seq<int>)
    ensures forall k :: 0 <= k < |r| ==> 2 <= r[k] && lastProcessed < r[k] <= lastFilled
    ensures lastFilled <= lastProcessed ==> r == []
  {
    RowsBetween(if lastProcessed < 1 then 2 else lastProcessed + 1, lastFilled)
  }

  /** The data-row range agrees with the written one once a row has been
      saved, and the header row is never visited. */
  lemma DataRowsSkipHeader(lastProcessed: int, lastFilled: int)
    ensures lastProcessed >= 1 ==> NewDataRows(lastProcessed, lastFilled) == NewRows(lastProcessed, lastFilled)
    ensures 1 !in NewDataRows(lastProcessed, lastFilled)
    ensures lastFilled >= 2 ==> NewDataRows(0, lastFilled) == NewRows(1, lastFilled)
  {
  }

  /** `check_for_new_entries` over data rows only. */
  method CheckForNewDataEntries(lastProcessed: int, lastFilled: int, process: int -> bool)
    returns (visited: seq<int>, state: int, processed: nat)
    ensures visited == NewDataRows(lastProcessed, lastFilled)
    ensures forall k :: 0 <= k < |visited| ==> visited[k] >= 2
    ensures visited == [] ==> state == lastProcessed
    ensures visited != [] ==> state == lastFilled
    ensures processed == Successes(visited, process)
  {
    var first := if lastProcessed < 1 then 2 else lastProcessed + 1;
    visited, state, processed := ScanRows(first, lastFilled, lastProcessed, process);
  }
}

# Lettia booking back office, modelled in Dafny

This project models the booking back office of Lettia_Automation, a set of
Python services that keep a short-stay rental's reservation sheet up to date.
Reservations arrive as CSV exports or from the Lodgify API. They are merged
into the sheet without erasing data, given a financial breakdown and a
tourist-tax amount, and matched with the SEF guest-registration forms
(`SEF` is the Portuguese border service, which wants one form per guest).
Invoice lines are then generated from both. Ledgers of processed ids keep
every import idempotent. The model covers the pure rules behind all of this
and proves the properties the code and its documentation promise.

Every service file is one module:

| file | module | service |
|---|---|---|
| `date_utils.dfy` | `DateUtils` | `services/date_utils.py` |
| `tourist_tax.dfy` | `TouristTax` | `services/tourist_tax.py` |
| `reservation_merger.dfy` | `ReservationMerger` | `services/reservation_merger.py` |
| `finance.dfy` | `Finance` | `services/finance.py` |
| `reservation_mapper.dfy` | `ReservationMapper`, `PhoneTables` | `services/reservation_mapper.py` |
| `invoice_dates.dfy` | `InvoiceDates` | `services/invoice_service.py`, date readers |
| `invoice.dfy` | `Invoice` | `services/invoice_service.py`, prices, matching and lines |
| `invoice_batch.dfy` | `InvoiceBatch` | `services/invoice_service.py`, the `generate_all_invoices` loop |
| `state_manager.dfy` | `StateManager` | `services/state_manager.py` |
| `csv_importer.dfy` | `CsvImporter` | `services/csv_importer.py` |
| `sef.dfy` | `Sef` | `services/sef.py` |
| `sef_form_watcher.dfy` | `SefFormWatcher` | `services/sef_form_watcher.py` |
| `lodgify.dfy` | `Lodgify` | `services/lodgify_service.py` |
| `utils.dfy` | `Utils` | `services/utils.py` |

Three modules hold the Python behaviour that the services rely on:
- `Base` (`base.dfy`) holds `Option` and `Result`. `Result.Err` stands for a raised exception.
- `Base` also holds the dynamic cell value `Value` (`None`, a text, or a number) and the `str` methods the code calls. These are `strip`, `split`, `join`, `lower`, `isdigit`, `replace` and `float()`.
- `Calendar` (`calendar.dfy`) models `datetime.date`: valid dates and the day number from `toordinal()`. Both directions of the conversion are proved.
- `Strptime` and `StrptimeFacts` (`strptime.dfy`) model `datetime.strptime` as CPython compiles it, as a backtracking regex matcher. `%m` and `%d` accept one digit, and `%d` also accepts a space-padded digit. A space matches any run of whitespace. Literals ignore case. The first match is kept, and text left over fails the parse.
- The same matcher models the `re.search` fallbacks of the invoice service.

How things are represented:
- Sheet rows, CSV rows and guest forms are maps from column name to cell text.
- Money is a real number.
- Python's `round(x, 2)` is a function parameter `rnd`, so each statement about money holds under any rounding.
- `SequenceMatcher(...).ratio()` is the parameter `ratio`.
- The current date is a parameter.
- The Sheets reads behind a loop are parameters.

Where the code and its documentation disagree, the model follows the code:
- The `normalize_date` docstring says the text `"45212"` gives 2023-10-02. The code never reads a numeric text as a serial number, so it rejects that text (`DateUtils.NumericTextNotSerial`). The number 45212 is 2023-10-13 (`DateUtils.Serial45212`).
- `normalize_date` reads `a/b/yyyy` month-first. The Lodgify reader reads it day-first. The two services disagree on such dates (`Lodgify.ReadsDifferently`).
- `normalize_price` deletes every dot before it reads a decimal comma, so `"873.50"` becomes 87350 (`Invoice.PointIsDeleted`). Its docstring describes dots as thousands separators, so this is modelled as intended behaviour and not as a finding.

## Model

| member | source | states |
|---|---|---|
| DateUtils.SerialDate | services/date_utils.py:42-49 | a number is the date `int(x)` days after 1899-12-30, absent exactly when that falls outside the calendar |
| DateUtils.NormalizeDate | services/date_utils.py:10-94 | None and blank texts are errors; a number succeeds exactly when its serial date exists; every result is a `YYYY-MM-DD` text of a valid date |
| DateUtils.FromFormats | services/date_utils.py:62-94 | a trimmed text succeeds exactly when one of the four formats reads it |
| DateUtils.NormalizeDateSafe | services/date_utils.py:97-121 | "" for None and for every input `normalize_date` rejects, otherwise its non-empty result |
| DateUtils.TrimInsensitive | services/date_utils.py:56-57 | surrounding whitespace never changes the outcome |
| DateUtils.SerialTruncates | services/date_utils.py:46-48 | two numbers with the same integer part give the same date (45212 and 45212.0) |
| DateUtils.Serial45212 | services/date_utils.py:33-36 | serial 45212 is 2023-10-13 |
| DateUtils.NormalizeIdempotent | services/date_utils.py:62-65 | a `YYYY-MM-DD` text comes back unchanged |
| DateUtils.OutputIsFixedPoint | services/date_utils.py:10-94 | normalising any result again returns it unchanged |
| DateUtils.MonthFirst | services/date_utils.py:76-81 | a slashed text is read month first whenever it can be |
| DateUtils.DayFirstFallback | services/date_utils.py:83-88 | a day-first text whose day exceeds 12 is read day first |
| DateUtils.NoFormatReadsDigits | services/date_utils.py:62-94 | a text of digits only matches none of the four formats |
| DateUtils.NumericTextNotSerial | services/date_utils.py:33-34 | the text "45212" is rejected although the number 45212 is a date |
| Finance.ToFloat | services/finance.py:88-104 | None, blank, "None", "nan" and "null" are 0; numbers pass through; any other text is the value `float()` reads once its comma is a point, or 0 when it reads none |
| Finance.ReadFeeText | services/finance.py:94-103 | empty and null-like texts are 0; otherwise the value `float()` reads once the comma is a point, or 0 when it reads none |
| Finance.DecimalCommaRead | services/finance.py:98-101 | a comma is read as the decimal point: "12,5" is 12.5 |
| Finance.LeadDate | services/finance.py:143-155 | a date is read from the first token of its text; a blank text has no first token |
| Finance.AnticipationAsWritten | services/finance.py:138-163 | a day count exactly when both dates are set and read, and then `max(0, check_in - reservation_date)` |
| Finance.Anticipation | services/finance.py:138-163 | the anticipation block never escapes and gives the same day counts as written |
| Finance.ReadNumbers | services/finance.py:74-79 | the three numbers are read exactly when each `float()` succeeds |
| Finance.ReadFees | services/finance.py:106-116 | the airbnb fee is recomputed only for an airbnb origin; the other three fees are copied through `_to_float` |
| Finance.Breakdown | services/finance.py:118-175 | total fees, VAT, net revenue, a payout that leaves out the dynamic fee, and zero per-night prices without nights or guests |
| Finance.CalculateFinancialsAsWritten | services/finance.py:21-195 | any exception, including one escaping the anticipation block, gives the all-zero breakdown |
| Finance.CalculateFinancials | services/finance.py:21-195 | an unreadable number zeroes the breakdown; otherwise it is the full breakdown, with an unreadable date affecting only `anticipation_days` |
| Finance.AsWrittenAgreesOtherwise | services/finance.py:138-163 | both definitions agree wherever the anticipation block does not escape |
| Finance.BlankReservationDateZeroesFees | services/finance.py:141-144 | a whitespace-only reservation date zeroes the whole breakdown as written |
| Finance.BlankReservationDateKeepsFees | services/finance.py:118-163 | the same reservation keeps its VAT and leaves only `anticipation_days` blank |
| Finance.DatesNeverZeroFees | services/finance.py:112-119 | with readable numbers, the VAT and fees never depend on the dates |
| Finance.AirbnbFeeOnlyForAirbnb | services/finance.py:106-110 | the airbnb fee is zero for any other origin |
| Finance.PayoutIgnoresDynamicFee | services/finance.py:133-136 | the expected payout does not depend on the dynamic fee |
| Finance.SameNumbers | services/finance.py:74-79 | only the three numeric columns decide whether the numbers are read |
| Finance.NoteFields | services/finance.py:198-388 | no notes when the numbers cannot be read; otherwise a note for every non-zero noted field, the per-night price only with nights and the per-guest price only with nights and guests, and never one for a zero field |
| Finance.ZeroBreakdownHasNoNotes | services/finance.py:229-384 | a zeroed breakdown gets no notes |
| Finance.NoAirbnbNoteOffAirbnb | services/finance.py:240-252 | a booking not made on airbnb never gets an airbnb-fee note |
| Finance.NoPerNightNoteWithoutNights | services/finance.py:341-360 | no per-night note for a stay without nights |
| Finance.CalculateVat | services/finance.py:401-412 | the VAT share `amount * rate / (1 + rate)`, failing only at rate -1 |
| Finance.CalculateNetAmount | services/finance.py:414-425 | the net share `amount / (1 + rate)`, failing only at rate -1 |
| Finance.VatAndNetSplitGross | services/finance.py:401-425 | before rounding the VAT share and the net share add up to the gross amount |
| Finance.CalculateStripeFee | services/finance.py:453-468 | the table rate for the upper-cased country, the rounded product with a 0 rate (`rnd(0)`) for a country missing from the table, 0 for a non-numeric rate |
| Finance.CalculateNetRevenue | services/finance.py:470-501 | fails only at VAT rate -1; gross and VAT are reported; the fees are the airbnb fee plus VAT for airbnb, the lodgify fee plus VAT for lodgify and VAT alone otherwise; net revenue is gross minus fees |
| Finance.NetRevenueAirbnb | services/finance.py:481-491 | an airbnb channel's fees are the airbnb fee plus VAT |
| Lodgify.Find | services/lodgify_service.py:604-616 | a key is found exactly when some member holds it, with that member's value |
| Lodgify.ReadDate | services/lodgify_service.py:553-580 | a date exactly when the fast path or one of the seven other formats accepts the text, and it is what one of the formats reads |
| Lodgify.NormalizeDateToIsoAsWritten | services/lodgify_service.py:537-584 | succeeds exactly when some format reads the trimmed text; the result reads back as that date |
| Lodgify.NormalizeDateToIso | services/lodgify_service.py:537-584 | the documented behaviour: succeeds exactly when some format reads the trimmed text, every result is the canonical `YYYY-MM-DD` text of that date, and the error messages for unreadable texts and non-texts are kept |
| Lodgify.AsWrittenAgreesWhenCanonical | services/lodgify_service.py:556-578 | the as-written and documented definitions agree exactly when the fast path returns a canonical text |
| Lodgify.IsoUnchanged | services/lodgify_service.py:556-560 | a `YYYY-MM-DD` text comes back unchanged |
| Lodgify.NormalizeIdempotent | services/lodgify_service.py:537-584 | normalising a result again returns it unchanged |
| Lodgify.DayFirst | services/lodgify_service.py:565-580 | a slashed day-first text is read day first |
| Lodgify.ReadsDifferently | services/lodgify_service.py:565-573 | the same slashed text is read day first here and month first by `normalize_date` |
| Lodgify.SpacePaddedDayKept | services/lodgify_service.py:556-560 | the fast path returns `YYYY-MM- D` as it is, which is not a `YYYY-MM-DD` text |
| Lodgify.GuestData | services/lodgify_service.py:657-670 | the guest record is the first truthy of `guests` (its first entry or itself), `guest` and `contact` |
| Lodgify.ExtractGuestInfo | services/lodgify_service.py:637-686 | defaults without a dict guest record; otherwise name, email, phone and count taken from it with their fallbacks |
| Lodgify.GuestNameShown | services/lodgify_service.py:673-677 | the name is non-empty exactly when `name`, `fullName` or the first and last names give one |
| Lodgify.NoGuestSources | services/lodgify_service.py:649-670 | a reservation without `guests`, `guest` or `contact` gets the default guest fields |
| Lodgify.GuestsListWins | services/lodgify_service.py:659-667 | a dict in the `guests` list wins over `guest` and `contact` |
| Lodgify.NameFromParts | services/lodgify_service.py:673-677 | without `name` and `fullName` the name is the trimmed first and last names |
| Lodgify.NormalizeStayDate | services/lodgify_service.py:623-633 | only a truthy text changes; a readable one becomes the canonical `YYYY-MM-DD` text of its date, an unreadable one and any other value are kept |
| Lodgify.NormalizeStayDateIdempotent | services/lodgify_service.py:623-633 | normalising a stay date twice changes nothing more |
| Lodgify.NormalizeStayDateAsWritten | services/lodgify_service.py:623-633 | with the reader as written: only a truthy text changes; a readable one becomes its trimmed self or its canonical text, either of which reads back as its date |
| Lodgify.NormalizeStayDateAsWrittenIdempotent | services/lodgify_service.py:623-633 | with the reader as written, normalising a stay date twice changes nothing more |
| Lodgify.StayDateRulesAgree | services/lodgify_service.py:556-560 | the two stay-date rules agree on every value except a text the fast path returns in a form that is not `YYYY-MM-DD` |
| Lodgify.NormalizeReservation | services/lodgify_service.py:586-635 | stay dates are raw or canonical, the camel-case key wins, `total_price` defaults to 0, the guest fields are merged in |
| Lodgify.CheckInNormalised | services/lodgify_service.py:608-627 | a day-first `checkIn` comes out as `YYYY-MM-DD` |
| Lodgify.UnreadableKept | services/lodgify_service.py:629-633 | an unreadable check-out is kept as sent |
| Lodgify.StayDatesSettled | services/lodgify_service.py:623-633 | the output's stay dates are already normalised |
| Lodgify.FlattenIsLeaves | services/lodgify_service.py:707-727 | an assignment of a value to a key is made exactly when the value is a leaf of the data at that path: not a dict, reached through dot-joined member names and `[i]` list positions |
| Lodgify.ToMap | services/lodgify_service.py:705-727 | every assigned key is in the dict, holding a value assigned to it |
| Lodgify.LastAssignmentWins | services/lodgify_service.py:712-727 | a key holds the value of its last assignment |
| Lodgify.FlattenLodgifyJson | services/lodgify_service.py:688-729 | a key for every leaf path of the data and no other key, each holding a leaf found at its path; no value is a dict, and with a prefix every key starts with it (which leaf wins a shared path: see FlattenLastAssignmentWins) |
| Lodgify.FlattenLastAssignmentWins | services/lodgify_service.py:707-729 | when two leaves share a path, the key holds the value of the last assignment the walk makes to it |
| Lodgify.DottedKeyOverwritten | services/lodgify_service.py:707-720 | `{"a.b": 1, "a": {"b": 2}}` flattens to `{"a.b": 2}`: the nested leaf overwrites the dotted key |
| Lodgify.FlatDictStays | services/lodgify_service.py:707-720 | a dict of plain values flattens to itself |
| Lodgify.ScalarItems | services/lodgify_service.py:713-718 | list entries that are not dicts are assigned under `key[0]`, `key[1]`, ... |
| Lodgify.EmptyDictVanishes | services/lodgify_service.py:711-712 | an empty dict under a key leaves no entry |
| Lodgify.NestedExample | services/lodgify_service.py:699-703 | the documented example: nested keys are joined with dots |
| Utils.CleanString | services/utils.py:69-86 | the result is single-spaced and has the same words as the input |
| Utils.CleanStringIdempotent | services/utils.py:84-86 | cleaning twice is cleaning once |
| Utils.CleanStringBlank | services/utils.py:84-86 | the result is empty exactly when the input is blank |
| Utils.CleanStringExample | services/utils.py:86 | " a  b\t" cleans to "a b" |
| Utils.SplitJoin | services/utils.py:86 | `" ".join(words).split()` gives the words back |
| Utils.CalculateDateRange | services/utils.py:119-131 | shifting the start by the result lands on the end; positive, zero and negative exactly as the end is after, equal to or before the start |
| Utils.DateRangeAdds | services/utils.py:119-131 | nights add up across an intermediate date |
| CsvImporter.SortedSet | services/csv_importer.py:158-159 | `sorted(set)`: strictly increasing and holding exactly the set's elements |
| CsvImporter.MissingColumns | services/csv_importer.py:151-154 | the required columns the first row lacks |
| CsvImporter.ValidateColumns | services/csv_importer.py:130-164 | no rows is an error; otherwise passes exactly when the first row has every required column, with the sorted message otherwise |
| CsvImporter.MissingListed | services/csv_importer.py:154-162 | the listed columns are increasing, exactly the missing ones, and empty exactly when validation passes |
| CsvImporter.RequiredIsASet | services/csv_importer.py:152 | order and repetition of the required list do not matter |
| CsvImporter.OnlyFirstRowCounts | services/csv_importer.py:150-151 | rows after the first are never looked at |
| CsvImporter.ValidateExample | services/csv_importer.py:156-162 | two missing columns are listed in order, followed by the available ones |
| Sef.MissingIssues | services/sef.py:56-59 | one issue for each listed field that is absent or empty |
| Sef.DateIssues | services/sef.py:61-67 | one issue for each non-empty date field whose trimmed text is not `YYYY-MM-DD` |
| Sef.Issues | services/sef.py:53-81 | exactly the missing fields, the bad dates and a reversed stay |
| Sef.IssuesInCheckOrder | services/sef.py:53-81 | the issues come check by check: every missing field before every bad date, and a reversed stay last |
| Sef.ValidateGuestData | services/sef.py:41-86 | valid exactly when there are no errors, exactly for an acceptable record; the k-th error is the message of the k-th issue found |
| Sef.AcceptableIffNoIssues | services/sef.py:84-86 | a record is acceptable exactly when no issue is found |
| Sef.MissingNone | services/sef.py:56-59 | no missing-field issue exactly when every listed field is filled |
| Sef.MissingAll | services/sef.py:56-59 | a record lacking every field misses all of them, in order |
| Sef.RegisterGuest | services/sef.py:202-254 | validation comes first: an invalid record fails with the joined messages before the PDF step |
| Sef.InvalidNeverGenerates | services/sef.py:205-209 | an invalid record fails the same way whatever the PDF step would do |
| Sef.IsoGuestAccepted | services/sef.py:41-86 | a filled record with ISO dates and a stay of at least a night is accepted |
| Sef.SameDayStayRejected | services/sef.py:69-78 | leaving on the arrival day is reported, and only that |
| Sef.IsoDateAccepted | services/sef.py:88-102 | an ISO date passes the format check |
| Sef.EmptyRecordMissesAll | services/sef.py:53-59 | an empty record misses all six fields and nothing else |
| SefFormWatcher.GetColumnIndex | services/sef_form_watcher.py:154-169 | the first non-empty header equal to the name once both are trimmed and lower-cased, with no earlier match, or none when no header matches |
| SefFormWatcher.LookupIgnoresCaseAndSpaces | services/sef_form_watcher.py:165-167 | names that agree once trimmed and lower-cased find the same column |
| SefFormWatcher.AliasIndexFrom | services/sef_form_watcher.py:182-185 | the first alias from a position on that has a column, with none before it |
| SefFormWatcher.FindColumnByAliases | services/sef_form_watcher.py:171-186 | none exactly when no alias has a column; otherwise the column of the earliest alias that has one |
| SefFormWatcher.ColumnName | services/sef_form_watcher.py:246-253 | the name of column n uses only the letters A to Z and is empty only for 0 |
| SefFormWatcher.IndexToColumnLetter | services/sef_form_watcher.py:246-253 | the loop yields the bijective base-26 name of the column, which reads back as the column |
| SefFormWatcher.NameThenNumber | services/sef_form_watcher.py:246-253 | column names read back as their number |
| SefFormWatcher.NumberThenName | services/sef_form_watcher.py:246-253 | every letter string is the name of the column it denotes |
| SefFormWatcher.ColumnLetterExamples | services/sef_form_watcher.py:245-253 | indices 0, 25, 26, 701 and 702 give A, Z, AA, ZZ and AAA |
| SefFormWatcher.LastFilledRow | services/sef_form_watcher.py:230-274 | an error without a full-name column; otherwise the last row with a filled full-name cell, read from that column below the header |
| SefFormWatcher.LastFilledIn | services/sef_form_watcher.py:264-274 | the sheet row of the last filled cell, with every later cell empty, or 1 when none is filled |
| SefFormWatcher.FieldValue | services/sef_form_watcher.py:310-329 | "" without a column or cell; a date field is "" or a `YYYY-MM-DD` text from `normalize_date_safe`; any other field is the trimmed cell |
| SefFormWatcher.ExtractRowData | services/sef_form_watcher.py:281-335 | none exactly when the full name comes out empty; otherwise exactly the eleven expected fields |
| SefFormWatcher.NamedRowIsGuest | services/sef_form_watcher.py:310-335 | a filled full-name cell makes the row a guest record holding the trimmed name |
| SefFormWatcher.RowsBetween | services/sef_form_watcher.py:480 | the rows from first to last, in order |
| SefFormWatcher.NewRows | services/sef_form_watcher.py:471-480 | nothing when nothing was added; otherwise the rows after the last processed one up to the last filled one |
| SefFormWatcher.ScanRows | services/sef_form_watcher.py:479-492 | visits the rows in order, counts the successes and leaves the state at the last visited row whether or not it succeeded |
| SefFormWatcher.CheckForNewEntries | services/sef_form_watcher.py:443-494 | visits exactly the new rows; the state moves to the last filled row, or stays when nothing is new |
| SefFormWatcher.RerunFindsNothing | services/sef_form_watcher.py:471-473 | a second run on the same sheet visits nothing |
| SefFormWatcher.RunsAreDisjoint | services/sef_form_watcher.py:480-492 | no row is visited by two runs, even when the sheet grows in between |
| SefFormWatcher.HeaderProcessedAsGuest | services/sef_form_watcher.py:123-138 | with the default state 0 the first row visited is row 1, the header, and it reads as a guest named after the full-name column's title |
| SefFormWatcher.NewDataRows | services/sef_form_watcher.py:471-480 | the corrected range: only rows from 2 on, after the last processed one |
| SefFormWatcher.DataRowsSkipHeader | services/sef_form_watcher.py:480 | the corrected range agrees with the written one once a row has been processed, and never holds row 1 |
| SefFormWatcher.CheckForNewDataEntries | services/sef_form_watcher.py:443-494 | the corrected loop visits only data rows and leaves the state as the written one does |
| TouristTax.ChargeableIffThreshold | services/tourist_tax.py:85-89 | `floor(days / 365.25) >= 16` holds exactly from 5844 days of age on |
| TouristTax.ChargeableNights | services/tourist_tax.py:77-90 | never more chargeable nights than nights |
| TouristTax.ChargeableNightsClosedForm | services/tourist_tax.py:79-90 | the chargeable nights are exactly those from the guest's sixteenth-birthday threshold on |
| TouristTax.CountChargeableNights | services/tourist_tax.py:77-90 | the loop counts the chargeable nights |
| TouristTax.DetailedOnDates | services/tourist_tax.py:137-175 | rate 2; no more chargeable than total nights; paid nights capped at 7; tax is twice the paid nights; all zero for a reversed stay; no tax for a birth date after today |
| TouristTax.TaxOnDates | services/tourist_tax.py:61-98 | an even amount between 0 and 14, zero for a reversed stay or a future birth date |
| TouristTax.TaxForNights | services/tourist_tax.py:70-98 | an even amount between 0 and 14, zero without nights |
| TouristTax.TaxMatchesDetailed | services/tourist_tax.py:13-175 | the detailed breakdown's tax is the plain tax |
| TouristTax.TaxClosedForm | services/tourist_tax.py:70-98 | the tax is 2 EUR per adult night, at most seven |
| TouristTax.ReadDate | services/tourist_tax.py:46-54 | a date read through `normalize_date` is valid |
| TouristTax.CalculateTouristTax | services/tourist_tax.py:13-98 | an error exactly when a date cannot be read, with its message; otherwise the tax of the three dates read (no tax for an empty stay or a birth after today), an even amount between 0 and 14 |
| TouristTax.CalculateTouristTaxDetailed | services/tourist_tax.py:101-175 | fails exactly when the plain version fails, and otherwise carries the same tax |
| TouristTax.ReadIso | services/tourist_tax.py:46-54 | a `YYYY-MM-DD` text is read as the date it spells |
| TouristTax.AdultFourNights | services/tourist_tax.py:36-38 | an adult staying four nights pays 8 |
| TouristTax.AdultNineNightsCapped | services/tourist_tax.py:39-40 | an adult staying nine nights pays 14, the seven-night cap |
| TouristTax.MinorPaysNothing | services/tourist_tax.py:42-43 | a fifteen-year-old pays nothing |
| TouristTax.TurningSixteenMidStay | services/tourist_tax.py:20-21 | a guest turning 16 during the stay pays only the nights from then on |
| TouristTax.SixteenAtCheckIn | services/tourist_tax.py:85-90 | a guest 16 on the arrival night pays every night |
| TouristTax.CanonicalTextAgrees | services/tourist_tax.py:45-98 | on `YYYY-MM-DD` texts the entry point computes the tax of the dates they spell |
| ReservationMerger.MergeField | services/reservation_merger.py:95-136 | financial fields take a non-blank incoming value, else the existing one, else 0; `country` always follows the incoming value; other fields keep a non-empty existing value only against an empty incoming one |
| ReservationMerger.Merge | services/reservation_merger.py:66-140 | the keys are those of both records, and each is merged by the field rule |
| ReservationMerger.NoErasure | services/reservation_merger.py:119-131 | an ordinary field that has a value keeps one |
| ReservationMerger.FinancialNeverNone | services/reservation_merger.py:97-106 | a financial field is never left empty |
| ReservationMerger.PayoutKeepsExisting | services/reservation_merger.py:101-105 | a blank incoming payout keeps the existing one |
| ReservationMerger.CountryOverwritten | services/reservation_merger.py:109-114 | `country` is overwritten even by an empty incoming value |
| ReservationMerger.DocExample | services/reservation_merger.py:83-88 | the documented example |
| ReservationMerger.MergeFieldIdempotent | services/reservation_merger.py:95-136 | merging a field with the same incoming value twice is merging it once |
| ReservationMerger.MergeIdempotent | services/reservation_merger.py:66-140 | merging the same import twice is merging it once |
| StateManager.Insert | services/state_manager.py:80-82 | adding a new id to a sorted list keeps it sorted and holds exactly one more id |
| StateManager.SortedIds | services/state_manager.py:82 | `sorted(list(ids))`: strictly increasing, exactly the same ids |
| StateManager.SortedUnique | services/state_manager.py:82 | two increasing lists of the same ids are equal |
| StateManager.Mark | services/state_manager.py:68-84 | a blank or known id changes nothing and saves nothing; a new trimmed id is added and saved |
| StateManager.MarkThenMarked | services/state_manager.py:68-119 | after marking, the id is known exactly when it is not blank, and other ids are unaffected |
| StateManager.MarkTwice | services/state_manager.py:78-84 | marking twice saves only once |
| StateManager.SavedIsCanonical | services/state_manager.py:80-82 | the saved list is the sorted list of the old ids and the new one |
| StateManager.MarkKeepsSorted | services/state_manager.py:80-82 | the list stays sorted |
| StateManager.BlankNeverMarked | services/state_manager.py:75-77 | a blank id is never recorded nor reported |
| StateManager.MarkImported | services/state_manager.py:68-84 | marks the imported ledger and leaves the notes ledger alone |
| StateManager.MarkNotesFilled | services/state_manager.py:86-102 | marks the notes ledger and leaves the imported ledger alone |
| StateManager.LedgersIndependent | services/state_manager.py:68-136 | marking one ledger never changes the answer of the other |
| StateManager.MarkInvoiceImported | services/state_manager.py:191-202 | marks the invoice ledger and leaves the invoice-notes ledger alone |
| StateManager.InvoiceMarkThenMarked | services/state_manager.py:191-211 | a marked invoice is reported exactly when its id is not blank, and marking it again saves nothing |
| ReservationMapper.NormalizeDate | services/reservation_mapper.py:81-128 | "" for an empty or `nan`/`none`/`null` cell; otherwise non-empty exactly when one of the ten formats reads the trimmed text, and then the `YYYY-MM-DD` text of the date the first such format reads |
| ReservationMapper.ReadDateText | services/reservation_mapper.py:107-128 | the first format that reads the text decides the date; "" when none does |
| ReservationMapper.NormalizeDateFixed | services/reservation_mapper.py:107-123 | a `YYYY-MM-DD` text comes back unchanged |
| ReservationMapper.NormalizeDateIdempotent | services/reservation_mapper.py:81-128 | normalising a result again returns it unchanged |
| ReservationMapper.DayFirst | services/reservation_mapper.py:107-123 | a slashed text is read day first |
| ReservationMapper.AnticipationDays | services/reservation_mapper.py:183-207 | "" when either date is missing or unreadable; otherwise a decimal count |
| ReservationMapper.AnticipationOfDates | services/reservation_mapper.py:194-204 | the days from booking to check-in, clamped at 0 |
| ReservationMapper.AnticipationNeverNegative | services/reservation_mapper.py:201-204 | a check-in before the booking date reads as 0 days |
| ReservationMapper.FirstToken | services/reservation_mapper.py:152-153 | the text up to the first `;`, `,` or space |
| ReservationMapper.CleanPhone | services/reservation_mapper.py:152-159 | every character of the cell's first number except spaces, hyphens, commas, parentheses and dots, each as often as there and in the same order |
| ReservationMapper.QuotePhone | services/reservation_mapper.py:161-181 | "" exactly for an empty number; otherwise a quote, then `+` and the national part when the number starts with `+` or `00` or is all digits, and the number unchanged otherwise |
| ReservationMapper.QuoteAgain | services/reservation_mapper.py:161-181 | quoting the number the prefix rules produce gives the same text again |
| ReservationMapper.NationalPart | services/reservation_mapper.py:169-170 | the number is its `+` or `00` prefix followed by the result, or the result itself when it has neither |
| ReservationMapper.NationalPartInverts | services/reservation_mapper.py:169-170 | removing a `+` or `00` put in front of a number gives the number back |
| ReservationMapper.NormalizePhone | services/reservation_mapper.py:130-181 | "" exactly when the cleaned first number is empty; otherwise a quote followed by that number in `+` form when it has an international prefix or is all digits, and as it is otherwise |
| ReservationMapper.DoubleZeroIsPlus | services/reservation_mapper.py:169-170 | a leading `00` becomes `+` |
| ReservationMapper.DigitsGetPlus | services/reservation_mapper.py:173-178 | a plain digit string gets a `+` |
| ReservationMapper.PlusKept | services/reservation_mapper.py:165-166 | a number with `+` is only quoted |
| ReservationMapper.FirstNumberOnly | services/reservation_mapper.py:152-153 | of a `;`-separated list only the first number counts |
| ReservationMapper.LongestMatch | services/reservation_mapper.py:241-246 | a match is the country of the longest table prefix of the number of at most n characters, and none means no such prefix |
| ReservationMapper.LongestMatchOfShortKeys | services/reservation_mapper.py:241-246 | when all keys are short enough, the bounded search finds the longest key among all of them, and the default exactly when no key matches |
| ReservationMapper.CountryFromPhone | services/reservation_mapper.py:209-246 | "" exactly when no table prefix starts the international form of the unquoted number; otherwise the country of the longest prefix that does |
| ReservationMapper.CountryOfNumber | services/reservation_mapper.py:227-246 | the country of the longest table prefix of the number's international form, "" when there is none |
| ReservationMapper.International | services/reservation_mapper.py:233-238 | the number itself when it has a `+`; `+` in front of a digits-only number of eight or more; "" exactly in every other case |
| ReservationMapper.DropQuotes | services/reservation_mapper.py:227 | the text after its leading quotes: everything removed is a quote, and the result does not start with one |
| ReservationMapper.QuoteIgnored | services/reservation_mapper.py:227 | a leading quote does not change the country |
| ReservationMapper.UkMobile | services/reservation_mapper.py:218 | the documented `'+44...` mobile is British although `+447` is not in the table |
| ReservationMapper.RemoveStripeNoise | services/reservation_mapper.py:272 | no whitespace, hyphen, parenthesis or dot remains |
| ReservationMapper.RemoveStripeNoiseKeepsRest | services/reservation_mapper.py:272 | every other character is kept, as often as in the input and in the same order |
| ReservationMapper.StripeDigits | services/reservation_mapper.py:272-279 | the cleaned phone is the result behind a `+` or a `00`, or the result itself without either prefix |
| ReservationMapper.StripeCountry | services/reservation_mapper.py:323-329 | "Other" exactly when no known code starts the digits; otherwise the country of the longest code that does |
| ReservationMapper.StripeRate | services/reservation_mapper.py:332-337 | the UK rate for the United Kingdom, the EU rate for an EU country, the other rate otherwise |
| ReservationMapper.StripeFee | services/reservation_mapper.py:248-339 | 0 off the website; on the website the rounded charge at the rate of the phone's country |
| ReservationMapper.UkCardFee | services/reservation_mapper.py:272-333 | a `+447...` website booking pays 2.5% plus 0.50 |
| ReservationMapper.PortugueseCardFee | services/reservation_mapper.py:272-335 | a `00351...` website booking pays 1.5% plus 0.50 |
| ReservationMapper.UsCardFee | services/reservation_mapper.py:272-337 | every `+1...` website booking pays 3.25% plus 0.50, since no known code starts with 1 |
| ReservationMapper.IntCell | services/reservation_mapper.py:414-423 | "" for a blank or unreadable cell; otherwise the number truncated toward zero |
| ReservationMapper.RealCell | services/reservation_mapper.py:426-435 | 0 for a blank or unreadable cell; otherwise the number |
| ReservationMapper.MappedFees | services/reservation_mapper.py:483-518 | no Airbnb fee; 1% channel fee and the card fee only on the website; the dynamic fee from 2024-11-12 on; total and payout as the sums |
| ReservationMapper.MapCsvRow | services/reservation_mapper.py:341-522 | a reservation exactly for `Booked` rows; the ids, origin, name, email and currency taken from their columns; arrival, departure and booking dates normalised; guest count, nights, total and VAT read as numbers; the phone normalised with its country; anticipation and fees as the field rules say |
| ReservationMapper.OnlyWebsitePaysCardFees | services/reservation_mapper.py:483-510 | off the website no card or channel fee is charged and the payout is the total |
| ReservationMapper.UndatedPaysNoDynamicFee | services/reservation_mapper.py:493-496 | a booking without a readable date pays no dynamic fee |
| ReservationMapper.DynamicFeeFromDate | services/reservation_mapper.py:493-496 | the text comparison is date order: the fee is owed exactly for bookings on or after 2024-11-12 |
| InvoiceDates.CenturyYear | services/invoice_service.py:171 | a two-digit year below 50 is 20xx, otherwise 19xx |
| InvoiceDates.GroupDate | services/invoice_service.py:159-163 | a date exactly when the three groups are present and form a real date, with the month, day and year they give (two-digit years by the century rule) |
| InvoiceDates.SearchDate | services/invoice_service.py:157-174 | the date of the first match's groups when the pattern is found, nothing when it is not |
| InvoiceDates.ParseSefDate | services/invoice_service.py:110-178 | none for a blank cell; the first of the ten formats that reads the trimmed text wins; then the four-digit-year search; then the two-digit-year search, whose failure gives none |
| InvoiceDates.ParseReservationDate | services/invoice_service.py:180-222 | none for a blank cell; the first of the four formats that reads the trimmed text wins; otherwise exactly what the four-digit-year search gives |
| InvoiceDates.ShortYearFirstRejects | services/invoice_service.py:138-139 | a format starting with a two-digit year and a separator fails on a text whose third character is a digit, such as `2025-08-24` |
| InvoiceDates.SefReadsIso | services/invoice_service.py:137-154 | a `YYYY-MM-DD` text is read as the date it spells, although two-digit-year formats come first |
| InvoiceDates.ReservationReadsIso | services/invoice_service.py:199-210 | a `YYYY-MM-DD` text is read as the date it spells |
| InvoiceDates.ReservationReadsDayFirst | services/invoice_service.py:199-210 | `DD/MM/YYYY` is read day first |
| InvoiceDates.ReservationReadsDayFirstDashed | services/invoice_service.py:199-210 | `DD-MM-YYYY` is read day first |
| InvoiceDates.SefReadsShortYear | services/invoice_service.py:137-154 | `YY-M-D` is read by the first format with `strptime`'s two-digit-year rule |
| InvoiceDates.SefExample | services/invoice_service.py:116 | the documented `25-9-14` is the 14th of September 2025 |
| Invoice.PriceText | services/invoice_service.py:46-54 | the number the cleaned text spells, or 0 when it spells none |
| Invoice.PriceCleaned | services/invoice_service.py:46-50 | no space, no-break space, euro sign or comma survives the cleaning, and every character other than the decimal point comes from the input |
| Invoice.PriceCleanedKeepsDigits | services/invoice_service.py:46-50 | read left to right, the digits and points of the cleaned text are the digits and commas of the input with each comma turned into a point: no digit is lost, moved or invented, and every input point is dropped |
| Invoice.PointsDroppedKeepsDigits | services/invoice_service.py:46-50 | before the commas are converted, no point is left and the digits and commas of the input are all still there, in order |
| Invoice.NormalizePrice | services/invoice_service.py:22-54 | 0 for none, the number itself, or the reading of the cleaned text |
| Invoice.EuropeanPrice | services/invoice_service.py:26-34 | an amount with dot or space thousands, a decimal comma and an optional euro sign or `EUR` reads as its value |
| Invoice.PointIsDeleted | services/invoice_service.py:50 | a decimal point is taken for a thousands separator: `873.50` reads as 87350 |
| Invoice.FuzzyScore | services/invoice_service.py:224-246 | 0 when either name is blank; otherwise the similarity of the lower-cased, trimmed names |
| Invoice.ScoreIgnoresCaseAndMargins | services/invoice_service.py:239-246 | names differing only in case and surrounding spaces score the same |
| Invoice.Keep | services/invoice_service.py:409-417 | the kept forms are exactly the accepted ones |
| Invoice.KeepTwice | services/invoice_service.py:492-500 | filtering twice is filtering once |
| Invoice.MatchingForms | services/invoice_service.py:409-417 | exactly the forms whose two dates read as the reservation's stay |
| Invoice.MatchingHead | services/invoice_service.py:409-417 | the stay's first form heads the list, keeping the input order |
| Invoice.BestFromFirstMax | services/invoice_service.py:428-437 | the scan ends with the top score and the first form that reaches it |
| Invoice.PickByName | services/invoice_service.py:428-449 | a form of the list: the first best-named one when its score clears 0.65, the first one otherwise |
| Invoice.MatchPrimaryGuest | services/invoice_service.py:385-454 | none without a stay; the first form overall when no form has the stay; otherwise a form of the stay, the best-named one when a name clears 0.65 |
| Invoice.NightsOf | services/invoice_service.py:477 | 0 without a nights column; an error exactly when `float` cannot read the cell |
| Invoice.TaxAmount | services/invoice_service.py:511 | positive for guests and nights, 0 without guests |
| Invoice.InvoiceTouristTax | services/invoice_service.py:456-512 | an error exactly when the nights cannot be read; (0, 0) without nights or before 2025-01-01; otherwise the counted guests and the rounded amount |
| Invoice.TaxedGuests | services/invoice_service.py:492-506 | the forms of the stay when some form matches, every form otherwise (also without a check-out date); zero exactly when there are no forms |
| Invoice.TaxCountsStayForms | services/invoice_service.py:492-506 | given the stay's forms, every one of them is counted |
| Invoice.TaxFallsBackToAllForms | services/invoice_service.py:503-504 | when no form has the stay, every form given is counted |
| Invoice.TouristTaxDescription | services/invoice_service.py:559-603 | "" without tax; with tax, an error exactly when the nights cannot be read, otherwise a non-empty text exactly when there is a whole night: the guests-times-nights text when the amount divided back gives the count, the error text otherwise |
| Invoice.InferredExact | services/invoice_service.py:590 | dividing back the tax of n guests over some nights gives n |
| Invoice.TaxDescriptionConsistent | services/invoice_service.py:583-595 | the unrounded tax of n guests over whole nights is described as n guests times those nights |
| Invoice.LodgingDescription | services/invoice_service.py:514-557 | the Airbnb text for Airbnb; the website text followed by the deposit, credit-note or no suffix |
| Invoice.WebsiteDescriptionsDistinct | services/invoice_service.py:549-555 | the three website lines carry three different descriptions |
| Invoice.Prefer | services/invoice_service.py:641-646 | a non-empty form answer replaces the reservation's value |
| Invoice.GuestIdentity | services/invoice_service.py:631-646 | the reservation's name and country with no document, each replaced by the primary guest's non-empty answer |
| Invoice.BuildInvoiceLine | services/invoice_service.py:605-686 | fails exactly when the tax description fails; otherwise a Forecast line without number or date for the reservation's trimmed id and dates, whose total is lodging plus tax and whose four fees are the reservation's prices |
| Invoice.WholeField | services/invoice_service.py:709 | 0 for a missing column; an error exactly when `float` cannot read the cell; otherwise its integer part |
| Invoice.WebsiteLines | services/invoice_service.py:726-767 | the deposit, its credit note and the final invoice, with the tax only on the last, adding up to price plus tax |
| Invoice.AssembleLines | services/invoice_service.py:711-769 | one line for Airbnb, three otherwise, adding up to price plus tax |
| Invoice.GenerateInvoiceLines | services/invoice_service.py:688-769 | fails exactly when the nights or the guest count cannot be read |
| Invoice.LinesSumToPricePlusTax | services/invoice_service.py:711-769 | the lines add up to the price plus the tax |
| Invoice.LineCount | services/invoice_service.py:713-767 | one line for Airbnb, three for a website booking |
| Invoice.LinesShareIdentity | services/invoice_service.py:659-684 | every line carries the reservation id, the guest identity, Forecast, no number and the nights |
| Invoice.WebsiteLinesShape | services/invoice_service.py:726-767 | deposit of 30% rounded, credit note taking it back, the final invoice with the total and the tax |
| Invoice.AirbnbLineShape | services/invoice_service.py:713-725 | the one Airbnb line carries the whole price and the tax |
| Invoice.ColumnIndex | services/invoice_service.py:74-98 | every column has its place in the sheet order |
| Invoice.ExternalId | services/invoice_service.py:1000-1003 | the trimmed Airbnb id for Airbnb, the Lodgify id otherwise, and the reservation id whenever the origin's column is missing |
| Invoice.WholeOf | services/invoice_service.py:1031-1040 | 0 for a falsy value; otherwise its integer part, or an error when `float` fails |
| Invoice.RowFor | services/invoice_service.py:1008-1083 | a row of the 23 columns, failing exactly when the nights cannot be read |
| Invoice.ColumnsDistinct | services/invoice_service.py:74-98 | 23 different columns |
| Invoice.RowHoldsColumns | services/invoice_service.py:1012-1081 | each cell of a row holds its column's entry |
| Invoice.FeesAddUp | services/invoice_service.py:1057-1064 | the total-fees cell is the sum of the four fee cells |
| Invoice.NewRowUnissued | services/invoice_service.py:1066-1075 | a new row is a Forecast with an empty invoice number and date |
| Invoice.ColumnEntry | services/invoice_service.py:1041-1065 | the lodging, tax, total and four fee cells carry the line's amounts unchanged |
| Invoice.TextCellsTrimmed | services/invoice_service.py:1015-1047 | every text cell of a new row is written without surrounding whitespace |
| Invoice.InvoiceTotalAddsUp | services/invoice_service.py:1064-1065 | the invoice total is lodging plus tax |
| Invoice.Rows | services/invoice_service.py:1006-1083 | one row per line, failing exactly when some line fails |
| Invoice.WriteInvoiceLines | services/invoice_service.py:967-1097 | always true in a dry run; false without lines; otherwise true exactly when every row can be built and the append succeeds |
| Invoice.GeneratedWriteFollowsAppend | services/invoice_service.py:1006-1093 | generated lines always build their rows, so writing them succeeds exactly when the append does |
| InvoiceBatch.SplitKeepsAll | services/invoice_service.py:1140-1154 | dated and undated reservations together are the input |
| InvoiceBatch.WithDatesAt | services/invoice_service.py:1140-1148 | every entry of the dated list is a reservation whose `reservation_date` parses, keyed by that date's day number |
| InvoiceBatch.WithoutDatesAt | services/invoice_service.py:1140-1148 | no reservation in the undated list has a `reservation_date` that parses |
| InvoiceBatch.WithDatesAppend | services/invoice_service.py:1140-1148 | the dated list keeps input order: the list of a concatenation is the concatenation of the lists |
| InvoiceBatch.WithoutDatesAppend | services/invoice_service.py:1140-1148 | the undated list keeps input order in the same way |
| InvoiceBatch.InsertByDay | services/invoice_service.py:1151 | inserting adds exactly the one reservation |
| InvoiceBatch.SortByDay | services/invoice_service.py:1151 | sorted by booking day, a permutation of the input |
| InvoiceBatch.SortIsStable | services/invoice_service.py:1151 | bookings of the same day keep their input order |
| InvoiceBatch.BatchOrderShape | services/invoice_service.py:1129-1154 | a permutation: the dated reservations by booking day, stably, then the undated ones in input order |
| InvoiceBatch.ExpectedLines | services/invoice_service.py:1211-1212 | exactly 1 line for an Airbnb reservation and exactly 3 for any other |
| InvoiceBatch.ExistingLines | services/invoice_service.py:1166-1171 | the count of existing invoice rows carrying the id: at most the number of rows, and 0 exactly when no row carries it |
| InvoiceBatch.ExpectedIsGenerated | services/invoice_service.py:1211-1212 | the lines expected are the lines generated |
| InvoiceBatch.Classify | services/invoice_service.py:1196-1291 | no id is passed over; outside a dry run an id in the ledger is skipped; a reservation with enough lines is skipped as complete; otherwise generated lines are previewed in a dry run, written exactly when the sheet accepts them, and any failure is an error |
| InvoiceBatch.Apply | services/invoice_service.py:1196-1296 | a written reservation adds its own id to the written list and the ledger, and a reservation adds to the written list exactly when it is written; a failure counts one error, a ledger or completeness skip one skip; at most one counter moves |
| InvoiceBatch.Run | services/invoice_service.py:1196-1296 | the written ids only grow, and the generated count is their number |
| InvoiceBatch.GenerateAllInvoices | services/invoice_service.py:1099-1319 | the tally is the loop run over the booking order from the given ledger, and the result succeeds exactly when something was generated or there was nothing to do |
| InvoiceBatch.ApplyGrowsLedger | services/invoice_service.py:1203-1222 | the ledger never loses an id, and a dry run never changes it |
| InvoiceBatch.RunRecordsWrites | services/invoice_service.py:1282-1286 | every id written is in the ledger at the end |
| InvoiceBatch.RunWritesFresh | services/invoice_service.py:1203-1207 | ids written are new to the starting ledger and pairwise different |
| InvoiceBatch.DryRunChangesNothing | services/invoice_service.py:1203-1279 | a dry run records and writes nothing |
| InvoiceBatch.RerunWritesNothingTwice | services/invoice_service.py:1099-1319 | each id is written at most once, never one already recorded, and never again by the next run |
| InvoiceBatch.DryRunReportsFailure | services/invoice_service.py:1315 | a dry run over some reservations reports failure and keeps the ledger |

## Left out

- Google Sheets, Dropbox, the Lodgify HTTP API, PDF generation and the JSON state files are not modelled. These are I/O. A sheet read is a parameter, or the data it returns is an input. Generating and uploading a guest PDF is a parameter. A ledger is the value its file holds.
- Logging, `print` and the progress counters printed by the batch loops are left out. They are output only.
- Orchestration scripts, the polling loop of the form watcher and the CSV file loading of `CSVImporter` are left out. They are I/O and scheduling around the modelled rules. `pandas` type inference is not modelled: CSV cells are texts.
- Python's `round(x, 2)` is not defined. It is the parameter `rnd`, because the rules about which fees are zero and what each sum contains do not depend on how rounding works.
- `difflib.SequenceMatcher(...).ratio()` is not defined. It is the parameter `ratio`, and only the threshold and the tie-breaking around it are modelled.
- Floating point is modelled as exact real arithmetic. `str()` of a float, `inf` and `nan` are not modelled. Where the code formats a number, the model takes the number as an integer or as text.
- `datetime` objects are not modelled as inputs. This covers the `datetime` branch of `_normalize_date_to_iso` and non-text, non-number values handed to `normalize_date` (including `bool`). Records hold `None`, texts and numbers only.
- The exception text is not modelled in full. Where Python builds the message from `type(value)` or from a caught exception (`Invalid date type`, `Invalid serial date number`), the model keeps only the fixed part.
- JSON objects are assumed to hold each key once, as `json.loads` leaves them. Python would keep the last of duplicate keys.
- `generate_financial_notes` is modelled only as which fields get a note, not the wording of the notes.
- Invoice.TaxDescriptionConsistent: covers only a whole number of nights. For that case it proves that the flat tax `count × nights × 2` passes the consistency check. When the `nights` cell is fractional, the description truncates it, the check fails, and the lemma says nothing about that case.
- Lodgify.NormalizeReservation: normalises the stay dates with the corrected reader, `Lodgify.NormalizeStayDate`. As written, the code keeps a text that passes the fast path but is not `YYYY-MM-DD`, such as `2025-01- 5`. That behaviour is `Lodgify.NormalizeStayDateAsWritten`, and `Lodgify.StayDateRulesAgree` shows it is the only difference.
- Lodgify.StayDatesSettled: proved for the corrected stay-date rule that `Lodgify.NormalizeReservation` uses. `Lodgify.NormalizeStayDateAsWrittenIdempotent` proves the same for the rule as written.
- Lodgify.NormalizeStayDateIdempotent: proved for the corrected stay-date rule. `Lodgify.NormalizeStayDateAsWrittenIdempotent` is the as-written counterpart.
- Python's Unicode text semantics are narrowed to ASCII. `str.isdigit`, `str.lower`, and the regex classes `\d` and `\s` accept other scripts' digits and letters; the model treats only ASCII digits as digits and folds only ASCII letters (whitespace follows `str.isspace` in full).
- `float()` of a text accepts `_` between digits (`"1_000"`), `inf` and `nan`. `Base.ParseFloat` reads only optionally signed decimals with an optional exponent, so such texts count as unreadable.
- The failure to read the invoice sheet's headers in `generate_all_invoices` (which returns `False` before the loop) is not modelled. Headers are I/O, and the loop is modelled from the point where they are known.
- Invoice.PriceCleaned: does not claim that no `EUR` is left. `str.replace` deletes occurrences left to right once, so `"EEURUR"` becomes `"EUR"`.

## Findings

| source | as written | input that shows it | evidently intended | confidence | as-written member | corrected member |
|---|---|---|---|---|---|---|
| services/finance.py:144-159 | the reservation date is cut with `split()[0]`, and the `except` around the anticipation block catches `ValueError`, `AttributeError` and `TypeError` but not `IndexError` | a readable `total_price` with `reservation_date` = `" "` and a check-in set: the outer handler returns the all-zero breakdown, VAT and fees included | an unreadable reservation date leaves only `anticipation_days` blank, as it does for any other bad date | high (not executed) | Finance.CalculateFinancialsAsWritten, Finance.BlankReservationDateZeroesFees | Finance.CalculateFinancials, Finance.BlankReservationDateKeepsFees |
| services/sef_form_watcher.py:459-480 | with no state file the last processed row is 0, so the scan starts at sheet row 1, which is the header | the first run on a form sheet with a full-name column: row 1 is read as a guest whose name is that column's title | the scan starts at the first data row, row 2 | medium (not executed) | SefFormWatcher.CheckForNewEntries, SefFormWatcher.HeaderProcessedAsGuest | SefFormWatcher.CheckForNewDataEntries, SefFormWatcher.DataRowsSkipHeader |
| services/lodgify_service.py:556-560 | the ISO fast path accepts any 10-character text with two dashes that `strptime('%Y-%m-%d')` reads, and returns it unchanged; `%d` also reads a space-padded day | `"2025-01- 5"` is returned as is, which is not `YYYY-MM-DD` | `"2025-01-05"`, the documented ISO form | low (not executed) | Lodgify.NormalizeDateToIsoAsWritten, Lodgify.SpacePaddedDayKept, Lodgify.NormalizeStayDateAsWritten | Lodgify.NormalizeDateToIso, Lodgify.NormalizeStayDate |

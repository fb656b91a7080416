# Attendance deductions: a Dafny model

A small attendance system for staff identified by **unit** and **jabatan**
(position). Three groups of code are modelled here.

- **The catalog endpoints.** These are api/deduction-table.py, api/employees.py, api/positions.py and api/units.py.
  - They read a spreadsheet of deduction tiers from row 8 on.
  - They skip blank rows and repeated header rows.
  - A row with an empty unit cell takes the last unit seen.
  - They turn the tier cells into integers with Python's `int()`.
  - They serve the tier table of one employee, the employee list, the positions of a unit, and the units.
- **The attendance page (app.js).**
  - It computes lateness against 09:00, with a 5-minute grace band, and early leave against 18:00.
  - It asks the deduction lookup (`/api/calculate`) for each deviation.
  - It stores one record per (date, unit, jabatan) in the browser's storage, replacing any earlier record for that slot.
  - It summarises one employee's records.
- **The calculator page (public/app.js).** It collects lateness and early-leave incidents for one employee and prices them in one batch.
- **The MongoDB attendance API (api/attendance.py).**
  - GET lists records, newest date first.
  - POST upserts on (date, name, unit, jabatan).
  - PUT updates a record by `_id`; DELETE removes one by `_id`.
  - Every handler answers "MongoDB not configured" when no database is configured.

Modules follow the source files:

| Module | Models |
|---|---|
| `Roster` | the sheet reader and carry-forward rule shared by the four catalog loaders; Python `str()`/`int()`; the unit/jabatan loader of api/positions.py and api/units.py |
| `DeductionTableApi`, `EmployeesApi`, `PositionsApi`, `UnitsApi` | the four catalog endpoints |
| `ClockTime` | app.js clock arithmetic and the live status rule |
| `Lookup` | the deduction lookup as both pages see it: a request, and a reply or a thrown error |
| `AttendanceLog` | app.js record building, the upsert store, the employee query and summary |
| `Incidents` | public/app.js incident list and batch pricing |
| `AttendanceApi` | api/attendance.py over an in-memory collection |
| `Decimal`, `Strings`, `Wrappers` | decimal text, Python's string order and sorted/deduplicated lists, `Option` |

State that the source updates in place is kept in classes:
- `AttendanceLog.AttendanceBook` holds the stored records.
- `Incidents.IncidentBoard` holds `incidents` and `currentEmployee`.
- `AttendanceApi.AttendanceStore` holds the collection.

Each loop and each state-changing handler is a method. It is proved equal to a specification function, and the properties are proved about those functions as lemmas.

The deduction lookup and the database driver's side effects are inputs to the model:
- the lookup service is a function `Request -> Reply`;
- the page's `confirm()` answers are parameters;
- `Date.now()`, `datetime.utcnow()` and the driver's fresh ObjectId are parameters.

## Model

| member | source | states |
|---|---|---|
| Roster.LastUnitIsLatest | api/deduction-table.py:21-25 | the carried unit is "" until a data row names a unit, and afterwards it is the unit cell of the latest data row that named one |
| Roster.TitleRowsIgnored | api/deduction-table.py:14 | rows 0-7 never matter: sheets that agree from row 8 on load the same list and carry the same unit |
| Roster.PyIntRoundTrip | api/deduction-table.py:30-43 | Python `int()` reads back what `str()` writes, for every integer |
| Roster.TierValue | api/deduction-table.py:30 | a blank cell gives 0, an integer cell itself, a text cell whatever `int()` gives (nothing when it raises) |
| Roster.TierValues | api/deduction-table.py:30-43 | a tier list, when the cells convert, has one value per tier column |
| Roster.TierValuesConvertEachCell | api/deduction-table.py:30-43 | the tier list exists exactly when every tier cell converts, and then holds each cell's value at that cell's column, in column order |
| Roster.CarryUnit | api/positions.py:21-25 | the unit the row gets and the new last valid unit are the same: the row's own unit text when it is a name, otherwise the last valid unit, unchanged |
| Roster.LoadedPairsAreNamed | api/positions.py:27-32 | every loaded (unit, jabatan) has a unit and a jabatan that are non-empty and not "0" |
| Roster.LoadAssignments | api/positions.py:9-35 | the loop builds exactly the list given by the skip, carry-forward and guard rules |
| Roster.LoadedUnitsComeFromSheet | api/units.py:15-31 | every loaded unit is the unit cell of some data row that named it: no unit is invented |
| DeductionTableApi.RowEmployee | api/deduction-table.py:27-48 | a data row contributes at most one employee, with a valid unit and jabatan and seven tiers of each kind |
| DeductionTableApi.KeptRowsAreWellShaped | api/deduction-table.py:9-49 | every kept employee has a valid unit and jabatan and seven tiers of each kind |
| DeductionTableApi.ParseRow | api/deduction-table.py:20-48 | one row yields its employee, or nothing when a tier cell fails `int()` or the unit/jabatan guard fails |
| DeductionTableApi.LoadRow | api/deduction-table.py:14-48 | one pass of the loop takes the list and the last valid unit from their values after the rows before `i` to their values after row `i`, and moves on to row `i + 1` |
| DeductionTableApi.LoadEmployeeData | api/deduction-table.py:9-49 | the loop, with the carried unit, builds exactly the specified list in row order |
| DeductionTableApi.FindEmployee | api/deduction-table.py:64-69 | the search finds nothing exactly when no employee has that unit and jabatan, and otherwise finds the first such employee |
| DeductionTableApi.BuildTable | api/deduction-table.py:74-93 | 7 early-leave and 7 lateness tiers in fixed range order, each tier carrying the employee's matching field |
| DeductionTableApi.HandleGet | api/deduction-table.py:71-94 | failure "Not found: unit - jabatan" exactly when no employee matches; otherwise the table of the first match |
| DeductionTableApi.PricedRowsAreListed | api/deduction-table.py:45-46 | every employee with a tier table also appears, with the same unit and jabatan, in the list that api/positions.py loads |
| EmployeesApi.RowEmployee | api/employees.py:25-58 | data row `i` contributes at most one employee, whose `id` is `i` and whose unit and jabatan are names |
| EmployeesApi.KeptRowsAreNamedAndNumbered | api/employees.py:9-60 | after the rows below `n`: valid unit and jabatan, ids that are row numbers from 8 up to `n - 1`, ids strictly increasing |
| EmployeesApi.ParseRow | api/employees.py:25-58 | one row yields its employee with `id` = row index, or nothing on a failing tier cell or the guard |
| EmployeesApi.LoadRow | api/employees.py:16-58 | one pass of the loop takes the list and the last valid unit from their values after the rows before `i` to their values after row `i`, and moves on to row `i + 1` |
| EmployeesApi.LoadEmployeeData | api/employees.py:16-58 | the loop builds exactly the specified list |
| EmployeesApi.HandleGet | api/employees.py:69-75 | `data` is the loaded list, `count` is its length, and ids rise strictly from 8 |
| EmployeesApi.AsTier | api/employees.py:37-52 | keeps one entry per employee, in order, with that employee's unit, jabatan and tiers |
| EmployeesApi.SameRowsAsTierLoader | api/employees.py:19-56 | the employee list and the tier loader keep the same rows, with the same unit, jabatan and tiers at every position |
| PositionsApi.JabatansIn | api/positions.py:51 | a jabatan is listed exactly when some loaded row pairs it with the unit |
| PositionsApi.Positions | api/positions.py:51-52 | the positions are strictly ascending (so distinct) and are exactly the unit's jabatans |
| PositionsApi.HandleGet | api/positions.py:47-53 | the response is strictly ascending, distinct, and exactly the jabatans of loaded rows with that unit |
| PositionsApi.UnknownUnitHasNoPositions | api/positions.py:51-53 | a unit no row has gives an empty list |
| UnitsApi.UnitsIn | api/units.py:45 | a unit is listed exactly when it is non-empty and some loaded row has it |
| UnitsApi.Units | api/units.py:45-46 | the units are strictly ascending and exactly the non-empty units of loaded rows |
| UnitsApi.HandleGet | api/units.py:43-47 | the response is strictly ascending, exactly the loaded units, and never holds "" or "0" |
| UnitsApi.ListedUnitsComeFromSheet | api/units.py:15-31 | every listed unit is the unit cell of a data row |
| UnitsApi.ListedUnitsHavePositions | api/units.py:45 | every listed unit has at least one position on the positions endpoint |
| Strings.BelowTransitive | api/positions.py:52 | Python's string order is transitive |
| Strings.BelowTotal | api/units.py:46 | any two different strings are ordered one way or the other |
| Strings.Insert | api/units.py:45-46 | adding to a strictly ascending list keeps it strictly ascending and adds exactly that value |
| Strings.SortedDistinct | api/positions.py:51-52 | `sorted(set(xs))` is strictly ascending and has exactly the elements of `xs` |
| Decimal.NatToStringRoundTrip | api/employees.py:34-38 | the decimal text of a number reads back as that number |
| ClockTime.Lateness | app.js:179-187 | never negative; 0 for an arrival at or before the expected time; otherwise exactly the minutes past it |
| ClockTime.EarlyLeave | app.js:190-198 | never negative; 0 for a departure at or after the expected time; otherwise exactly the minutes short of it |
| ClockTime.StatusRule | app.js:157-175 | "ok" exactly when late is at most 5 and early is 0 (and then the only line is "on time"); "late" whenever late > 5, even with early leave; "early" only when early > 0 and late is at most 5; exactly the late line, exactly the early line, or the late line then the early line, as the deviations are; "on time" never appears beside either |
| ClockTime.UpdateTimeStatus | app.js:145-152 | no status while either time is empty; otherwise "ok" exactly in the on-time case |
| Lookup.TotalContribution | app.js:229-234 | with no successful reply the total is 0; every successful reply's \|deduction\| is part of the total |
| Lookup.Ask | app.js:225-230 | one reply per request, in order, each the lookup's answer to that request |
| AttendanceLog.Requests | app.js:223-256 | a late lookup is issued exactly when late > 5 and an early lookup exactly when early > 0; at most one of each, late first, all for the form's unit and jabatan with positive minutes |
| AttendanceLog.Details | app.js:231-252 | no more fragments than requests, each one a status fragment; none exactly when no reply succeeded |
| AttendanceLog.DetailsSingle | app.js:231-252 | one request contributes `Telat {n}m` or `Pulang Awal {n}m` exactly when its lookup succeeded, and nothing otherwise |
| AttendanceLog.DetailsAppend | app.js:220-252 | the fragments follow request order: those of a longer request list are those of its parts, one after the other |
| AttendanceLog.SuccessfulFragmentsListed | app.js:231-252 | every successful lookup has its fragment in the list |
| AttendanceLog.DetailsPair | app.js:220-252 | for two requests, the first one's fragment (if it succeeded) comes before the second one's (if it succeeded) |
| AttendanceLog.OnlySuccessDetails | app.js:231-252 | when only the k-th lookup succeeded, the list is exactly that request's fragment |
| AttendanceLog.BothChargedStatus | app.js:220-260 | when both lookups succeed the status is `Telat {late}m, Pulang Awal {early}m`, late first and joined by ", " |
| AttendanceLog.OneChargedStatus | app.js:220-260 | when exactly one lookup succeeds the status is that one's fragment alone, `Telat {late}m` or `Pulang Awal {early}m` by its kind |
| AttendanceLog.RecordFor | app.js:263-273 | the record keeps the form's slot and times; stored lateness is 0 or above 5, above 0 exactly when late > 5, and then exactly the computed lateness; early leave is as computed; the deduction is the total of the successful replies, never negative |
| AttendanceLog.OnTimeIffNoSuccess | app.js:218-260 | the status is "Tepat Waktu" exactly when no lookup succeeded, whatever the minutes; then the deduction is 0 |
| AttendanceLog.TwentyMinutesLate | app.js:216-273 | arriving at 09:20 with a reply of -15000 stores lateMinutes 20, deduction 15000, status "Telat 20m" |
| AttendanceLog.WithinGraceOnTime | app.js:216-273 | arriving at 09:03 and leaving at 18:00 issues no lookup and stores 0, 0, deduction 0, "Tepat Waktu" |
| AttendanceLog.AttendanceBook.HandleSaveAttendance | app.js:201-287 | a missing unit, jabatan or date saves nothing and asks nothing; otherwise the requests are exactly those specified and the stored list is the old one with the specified record upserted |
| AttendanceLog.ChargeDeviations | app.js:223-256 | the two guarded lookups give exactly the specified requests, total and status fragments |
| AttendanceLog.Charge | app.js:223-238 | one lookup adds its reply's contribution to the total and its fragment only on success |
| AttendanceLog.SlotIndex | app.js:294-296 | the index of the first record in the slot, or -1 exactly when no record is in it |
| AttendanceLog.UpsertedShape | app.js:298-302 | with a record in the slot, the first one is replaced and the length and all other records stay; otherwise the record is appended |
| AttendanceLog.UpsertKeepsSlotsUnique | app.js:290-305 | if each slot held at most one record before a save, it still does, and the saved slot holds exactly the new record |
| AttendanceLog.AttendanceBook.SaveRecord | app.js:290-305 | the `findIndex` loop and the replace-or-push give exactly the upserted list |
| AttendanceLog.RecordsFor | app.js:316 | exactly the records of that unit and jabatan |
| AttendanceLog.InsertByDate | app.js:317 | inserting into a newest-first list keeps it newest first and adds exactly that record |
| AttendanceLog.SortNewestFirst | app.js:317 | dates never increase along the result, which is a permutation of its input |
| AttendanceLog.EmployeeRecords | app.js:314-318 | a permutation of the employee's records (exactly those), dates never increasing |
| AttendanceLog.LateDays | app.js:338 | the late-day count is at most the number of records |
| AttendanceLog.EarlyDays | app.js:339 | the early-day count is at most the number of records |
| AttendanceLog.TotalDeductionBounds | app.js:340 | over saved records the total deduction is not negative and is at least each record's deduction, a missing one counting as 0 |
| AttendanceLog.Tally | app.js:333-341 | the `forEach` counters end as the number of late days and of early days (each at most the record count) and the sum of the deductions, a missing one counting as 0 |
| AttendanceLog.AttendanceBook.LoadEmployeeSummary | app.js:321-364 | nothing without a unit and jabatan; otherwise the counters of the loop equal the day counts (each at most the record count) and the deduction total over the employee's records, plus their history |
| AttendanceLog.IssueRecords | app.js:374 | exactly the records with lateness or early leave |
| AttendanceLog.IssueRecordsAppend | app.js:374 | the issue filter keeps order: it acts on each part of a list in turn |
| AttendanceLog.DisplayHistory | app.js:367-380 | "no history" exactly for no records, "no issues" exactly when none has lateness or early leave, otherwise the non-empty issue list |
| Incidents.CalculateRequest | public/app.js:153-176 | a request is sent exactly when unit, jabatan and type are set and minutes is neither NaN nor 0; it carries those values |
| Incidents.IncidentBoard.HandleJabatanChange | public/app.js:96-107 | with both selects set they become the current employee, and then an add for that pair never clears the list; otherwise nothing changes |
| Incidents.IncidentBoard.HandleAddIncident | public/app.js:205-238 | an incomplete form or a declined switch changes nothing; an accepted switch leaves exactly the new incident; otherwise the incident is appended with the earlier ones untouched; the form pair becomes the current employee |
| Incidents.WithoutId | public/app.js:276 | exactly the incidents whose id differs |
| Incidents.WithoutIdAppend | public/app.js:276 | removal keeps order: it acts on each part of a list in turn |
| Incidents.WithoutAbsentId | public/app.js:276 | removing an id that is not listed changes nothing |
| Incidents.IncidentBoard.RemoveIncident | public/app.js:275-278 | the list becomes the filtered list; the current employee stays |
| Incidents.IncidentBoard.HandleClearAll | public/app.js:281-286 | the list is emptied exactly when confirmed |
| Incidents.BatchDetails | public/app.js:315-321 | each detail comes from a successful reply for one of the incidents, with its type, minutes and deduction |
| Incidents.BatchDetailsSingle | public/app.js:316-321 | one incident gives its type, minutes and deduction when its lookup succeeds, and nothing otherwise |
| Incidents.BatchDetailsAppend | public/app.js:300-324 | the details follow incident order: those of a list are those of its first part followed by those of its second part |
| Incidents.SuccessesAreListed | public/app.js:316-321 | every incident whose lookup succeeds has its entry among the details |
| Incidents.TotalMatchesDetails | public/app.js:315-323 | the batch total is the sum of \|deduction\| over the details shown |
| Incidents.IncidentBoard.HandleCalculateBatch | public/app.js:289-330 | an empty list asks nothing; with no thrown error every incident is asked and the result is the specified details and total; a thrown error ends the batch at that incident with nothing shown |
| AttendanceApi.ToObjectId | api/attendance.py:144 | an id exists exactly for a 24-digit hex string (or an ObjectId) |
| AttendanceApi.IdIndex | api/attendance.py:143-146 | the first document with that `_id`, or -1 exactly when there is none |
| AttendanceApi.KeyIndex | api/attendance.py:97-102 | the first document with the posted date, name, unit and jabatan, or -1 exactly when there is none |
| AttendanceApi.Post | api/attendance.py:91-117 | a failure changes nothing; a body without one of the four key fields fails |
| AttendanceApi.PostUpdatesExisting | api/attendance.py:104-110 | with a matching document, the POST succeeds exactly when the body carries no different `_id`; then its posted fields are overwritten, its other fields kept, nothing inserted, and "Record updated" with its id returned |
| AttendanceApi.PostCreates | api/attendance.py:111-115 | without a match, the POST succeeds exactly when the new `_id` (the posted one, else the generated one) is not taken; then one document is appended holding the posted fields, `created_at` and that `_id` and no other field, the rest is unchanged, and "Record created" with that id is returned |
| AttendanceApi.PostKeepsKeysUnique | api/attendance.py:97-115 | if each (date, name, unit, jabatan) had at most one document before a POST, it still does |
| AttendanceApi.PostKeepsIdsValid | api/attendance.py:104-115 | after a POST every document still has an `_id` that no other has |
| AttendanceApi.Put | api/attendance.py:133-152 | a failure changes nothing; a missing or falsy `_id` answers "Record ID required"; the count never changes |
| AttendanceApi.PutChangesOnlyItsDocument | api/attendance.py:138-150 | no `_id` is ever changed; success exactly when the collection changed; then only the document with the given id changed and it carries `updated_at` |
| AttendanceApi.PutUnknownId | api/attendance.py:143-150 | with a truthy, well-formed id, every failure is "Record not found" with the collection unchanged, and an id no document has always fails that way |
| AttendanceApi.PutMergesFields | api/attendance.py:138-146 | a successful PUT writes every posted field but `_id` into its document, sets `updated_at` to now, keeps `_id` and every field not posted, and adds nothing else |
| AttendanceApi.PutKeepsIdsValid | api/attendance.py:138-146 | after a PUT every document still has a unique `_id` |
| AttendanceApi.Delete | api/attendance.py:168-183 | a failure changes nothing; a missing `_id` answers "Record ID required"; success removes one document |
| AttendanceApi.DeleteRemovesExactlyOne | api/attendance.py:177-179 | a known id removes exactly its document, the rest in order, and no document with that id is left |
| AttendanceApi.RemovedIdIsGone | api/attendance.py:177-179 | with unique ids, no document left after removing one has its id |
| AttendanceApi.DeleteUnknownId | api/attendance.py:180-181 | an id no document has answers "Record not found" and changes nothing |
| AttendanceApi.Filter | api/attendance.py:58-62 | exactly the documents matching the non-empty unit and jabatan parameters |
| AttendanceApi.ValueBelowTransitive | api/attendance.py:67 | the BSON value order used by the sort is transitive |
| AttendanceApi.ValueBelowTotal | api/attendance.py:67 | any two different BSON values are ordered one way or the other |
| AttendanceApi.InsertByDate | api/attendance.py:67 | inserting into a date-descending list keeps it date-descending and adds exactly that document |
| AttendanceApi.SortByDateDescending | api/attendance.py:67 | dates never increase along the result, which is a permutation of its input |
| AttendanceApi.Found | api/attendance.py:58-67 | a permutation of the matching documents (exactly those), newest date first |
| AttendanceApi.WithStringId | api/attendance.py:70-71 | the same fields, with `_id` replaced by its string |
| AttendanceApi.StringifyIds | api/attendance.py:70-71 | the loop leaves every record in place with its `_id` turned into a string |
| AttendanceApi.StringIdsKeepOrder | api/attendance.py:67-71 | turning the ids into strings keeps the newest-first date order |
| AttendanceApi.AttendanceStore.HandleGet | api/attendance.py:39-77 | not configured answers "MongoDB not configured"; otherwise the matching documents newest first, each `_id` as a string |
| AttendanceApi.AttendanceStore.HandlePost | api/attendance.py:79-119 | not configured changes nothing; otherwise answer and collection are those of `Post`, and ids stay valid |
| AttendanceApi.AttendanceStore.HandlePut | api/attendance.py:121-154 | not configured changes nothing; otherwise answer and collection are those of `Put`, and ids stay valid |
| AttendanceApi.AttendanceStore.HandleDelete | api/attendance.py:156-185 | not configured changes nothing; otherwise answer and collection are those of `Delete`, and ids stay valid |
| AttendanceApi.AttendanceStore.FindByKey | api/attendance.py:97-102 | the search loop finds the first document with the posted key |
| AttendanceApi.AttendanceStore.FindById | api/attendance.py:143-146 | the search loop finds the first document with the id |

## Left out

- The browser side has no model of the DOM or of the text and HTML shown: alerts, badges, `toLocaleString`, `formatDate`, and the period line of the summary (min/max dates).
- Network, `fetch` and JSON parsing are not modelled. The deduction lookup behind `/api/calculate` is not part of this model: it is an arbitrary function from request to reply.
- Persistence transport is not modelled. `localStorage` is the `records` field. The MongoDB collection is an in-memory sequence in natural order; pymongo, CORS headers and `json_serial` are left out.
- Dates are (year, month, day) values compared lexicographically. JavaScript `Date` parsing of the date text is not modelled.
- `pd.read_excel` is not modelled. The sheet is a sequence of rows of blank, text or integer cells. Float cells and `int(float)` truncation are not modelled.
- Every row is assumed to have at least 20 cells (6 for the unit/jabatan loader). A narrower sheet is not modelled. In api/deduction-table.py, api/positions.py and api/units.py the missing cell raises `KeyError` inside the `try`; the bare `except` skips the row, so every data row is dropped and the list comes back empty. In api/employees.py, `except (ValueError, TypeError)` does not catch the `KeyError`; it reaches `do_GET`, which answers `success: false` with the error text.
- Handlers run to completion. The browser interleaves them at each `await`: an add, a clear or a jabatan change can run during a batch calculation or a save (public/app.js:300-314, app.js:225-243). That interleaving is not modelled, so `Incidents.IncidentBoard.HandleCalculateBatch` and `AttendanceLog.AttendanceBook.HandleSaveAttendance` price every request for one list and one employee as they were when the handler started.
- Python `int()` is modelled for ASCII input only. Unicode digits and Unicode whitespace are not accepted by the model.
- Row skips: the source has a second skip test, `pd.isna(row[1]) and str(row[2]) == '0'`. It can never hold once the first test has failed, so it does not appear in the model.
- The GET `name` regex filter of api/attendance.py is not modelled. A blank `unit` or `jabatan` parameter is treated as absent, as `parse_qs` drops blank values.
- MongoDB matching is modelled as equality on top-level fields. Array fields, dotted `$set` paths and fields starting with `$` are not modelled. JSON arrays and nested objects are not modelled as field values.
- JSON numbers are integers. Fractional values, which the driver stores as doubles and which BSON sorts together with integers, are not modelled; neither is the falsy `0.0` as an `_id`.
- Exception messages (`str(e)`) are not modelled: every caught exception is the one error `Raised`.
- The ObjectId generated on insert is a parameter. It is required to be an ObjectId; whether it is fresh is decided by the same duplicate check as a posted `_id`.
- The database's order among documents with equal dates is its own affair. The model fixes one order (stable), and only the descending dates and the permutation are claimed.
- Malformed or empty clock times: the source turns them into NaN. The model requires well-formed "HH:MM" times wherever lateness or early leave is computed.
- AttendanceLog.AttendanceBook.HandleSaveAttendance: requires well-formed times when the form is complete, because the source does not check them.
- AttendanceApi.Post: requires the stored ids to be valid and the generated id to be an ObjectId. These are facts about the database and the driver, not checks in the handler.
- The app.js record key has no `name` field, and app.js has no remote store with a local fallback. The model follows the code as written.

# financeiro — a verified model of the bill tracker's core

financeiro is a personal bill tracker. A user records bills with an amount, a
due date, an optional category, a boleto (payment slip) and a payment
receipt. The server sends e-mail reminders before and on the due day, and it
builds monthly reports as PDF, spreadsheet, CSV or ZIP. It also lets the user
edit a bill, mark it paid or pending, and manage categories. The client
expands recurring bills month by month and filters, sorts and pages the
lists. It also shows due-today and overdue alerts. Both sides carry small
validators and sanitisers.

This project models that core in Dafny and proves what the code promises
about it:

- `Calendar`: civil dates with leap years. `NewDate` is JavaScript's
  `new Date(y, monthIndex, d)`: a year from 0 through 99 is first read as
  1900 through 1999 (`ConstructorYear`), then `MakeDate` normalises the
  month and the day. `StepMonth` is
  `setMonth(getMonth() + 1)`, which overflows instead of clipping.
- `Bills`: the bill record, its schema defaults and validity, and the
  pre-save `paid_at` hook, as a `BillDocument` class whose fields the hook
  updates. It also holds the report and dashboard totals.
- `Notifications`: the dispatcher and the two reminder sweeps. They run over
  a `NotificationLedger` class whose `records` field is the notification
  collection. Both sweeps append to it, and both read it for de-duplication
  (regular) and for the three-hour cool-down (urgent).
- `ReportQuery`, `ReportRows`, `Spreadsheet`, `PdfReport`, `ZipArchive`: the
  report pipeline up to the bytes. This covers the query filter, row
  projection, spreadsheet cells and stripes, PDF page height, legend grid and
  table lines, and ZIP entry names.
- `BillUpdates`, `BillUpdateApi`, `Categories`: the edit and status PATCH
  handlers with their validators, the `escape()` sanitiser and the reading
  of a due date through `new Date(y, m - 1, d)`; the serverless PATCH/DELETE
  handler; and the category rules. Each takes the store value and returns
  the reply and the new store.
- `Recurrence`, `ClientViews`: the client's recurring-bill loop with its
  preview count, the period filters, list order, pagination and alerts.
- `ClientSecurity`, `ServerSecurity`: the escape chain, password and file
  checks, form sanitising, token-renewal test, CSRF, host, origin,
  magic-number, URL, e-mail and user-agent checks.
- `Text`, `Sequences`, `Wrappers`: the JavaScript built-ins the code relies on
  (`split`, `trim`, `replace`, `includes`, `toLowerCase`, `filter`, `sort`,
  and `length` in UTF-16 code units), and `Option`.

Modelling conventions:

- Time is an integer count of milliseconds in one local time zone. A due
  date is always a local midnight, because every path that stores one builds
  it with `new Date(y, m - 1, d)`.
- Amounts are integer cents.
- JavaScript's falsy strings are `Option<string>`: `None` is `null` or
  `undefined`, and `Some("")` is falsy too.
- Every outside input is a parameter:
  - the current time;
  - whether mail credentials are configured and whether each delivery
    succeeds;
  - which attachment files exist on disk;
  - the decoded token.
- The database is passed in and returned as a value.

Behaviours of the code that the model keeps as written:

- In the urgent sweep, a bill whose owner no longer exists makes the whole
  sweep throw, because the owner is read outside the per-bill `try`. The
  model aborts the sweep there (`Notifications.UrgentAbortsOnMissingOwner`).
- An urgent record blocks a later regular reminder for the same bill. Both
  sweeps share one ledger, and the regular sweep skips any bill that has a
  record.
- In the serverless DELETE, a bill with a stored boleto or receipt reaches
  `fs` and `path`, which are never imported. That request fails with 500 and
  deletes nothing.
- A bill that is already paid and is marked paid again gets a new `paid_at`
  (`BillUpdates.RepayingRestampsPaidAt`).

## Model

| member | source | states |
|---|---|---|
| Bills.ParseStatus | backend/models/Bill.js:31-35 | only `pending` and `paid` are accepted statuses, and an accepted status prints back as the same text |
| Bills.NewBill | backend/models/Bill.js:3-63 | a new bill holds the trimmed name and category, is pending with no `paid_at`, no files, no filenames and no PIX text, carries the creation time as `updatedAt`, and satisfies the paid/`paid_at` invariant; it meets the schema exactly when the trimmed name has 1 to 120 UTF-16 code units, the trimmed category at most 120, the amount is at least one cent and the due date exists |
| Bills.TrimOption | backend/models/Bill.js:18 | the `trim` setter on an optional string keeps `null` and yields a string that trimming leaves unchanged |
| Bills.PaidAtAfterSave | backend/models/Bill.js:71-81 | an unmodified status leaves `paid_at` alone; a status modified to paid keeps a given `paid_at` or stamps now; a status modified to pending clears it |
| Bills.SaveRestoresPaidInvariant | backend/models/Bill.js:71-81 | after the hook, status is paid exactly when `paid_at` is set, whenever the status was modified or the invariant already held |
| Bills.BillDocument.constructor | backend/models/Bill.js:3-61 | a loaded document holds the stored bill with its status marked unmodified |
| Bills.BillDocument.SetStatus | backend/models/Bill.js:72 | assigning a status changes only the status, and marks it, and the document, modified when the value differs |
| Bills.BillDocument.StampUpdatedAt | backend/models/Bill.js:63 | the timestamps option stamps `updatedAt` on save exactly when the document was modified, and touches nothing else |
| Bills.BillDocument.PreSave | backend/models/Bill.js:71-81 | the save hook rewrites only `paid_at`, by the pre-save rule |
| Bills.ComputeTotals | backend/server.js:1437-1439 | total = paid + pending; paid and pending are the sums over paid and pending bills; an empty list gives zeros; with non-negative amounts 0 <= paid <= total |
| Bills.SumSplitsByStatus | frontend/src/App.jsx:115-120 | the sum of all bills is the paid sum plus the pending sum, so the dashboard's pending = total − paid |
| Bills.NonNegativeTotals | backend/server.js:1437-1439 | with non-negative amounts, neither the paid nor the pending sum is negative |
| Calendar.MakeDate | backend/server.js:565 | the date arithmetic of `new Date(y, monthIndex, d)` on a full year gives a valid date whose day number is day 1 of the normalised month plus d − 1 |
| Calendar.NewDate | backend/server.js:565 | `new Date(y, monthIndex, d)` is a valid date whose day number is day 1 of the normalised month plus d − 1, counted in year 1900 + y when y is from 0 through 99 |
| Calendar.NewDateTwoDigitYear | backend/server.js:1813-1814 | for a year y from 0 through 99 the constructor builds a date of year 1900 + y, so month 6 of year 50 is June 1950 |
| Calendar.NewDateOfValid | backend/server.js:564-565 | any other year is kept: the parts of a valid date give that date back |
| Calendar.MakeDateOfValid | backend/server.js:564-565 | building a valid date from its own parts gives it back unchanged |
| Calendar.StepMonth | frontend/src/App.jsx:399 | one recurrence step gives a valid date |
| Calendar.StepMonthIsSetMonth | frontend/src/App.jsx:399 | the step is `setMonth(month + 1)` with JavaScript's day overflow |
| Calendar.StepMonthDistance | frontend/src/App.jsx:399 | the step moves forward by exactly the length of the current month, so 31 January lands on 3 March in a common year |
| Calendar.LastDayOfMonth | backend/server.js:1814 | day 0 of the next month is the last day of month m |
| Calendar.DayNumberOrder | frontend/src/App.jsx:159-163 | comparing due timestamps agrees with calendar order, in both directions |
| Recurrence.Schedule | frontend/src/App.jsx:377-400 | the loop emits nothing iff start is after end, and every emitted date is valid and not after the end date |
| Recurrence.ScheduleSteps | frontend/src/App.jsx:377-399 | the first emitted date is the start, and each later one is the previous one advanced by `setMonth(+1)` |
| Recurrence.ScheduleIncreasing | frontend/src/App.jsx:380-399 | the emitted dates strictly increase |
| Recurrence.AddRecurring | frontend/src/App.jsx:362-429 | start after end reports the error and posts nothing; otherwise the loop posts the schedule in order, stops at the first rejected POST keeping the earlier bills, and reports all of them on success |
| Recurrence.PreviewIsAnUpperBound | frontend/src/App.jsx:1238-1242 | the loop never creates more bills than the preview announces |
| Recurrence.MonthsCoveredCounts | frontend/src/App.jsx:377-400 | for start days 1–28 the loop creates one bill per month in which the start day is reached |
| Recurrence.PreviewMatchesWithoutOverflow | frontend/src/App.jsx:1238-1242 | the preview is exact when the start day is at most 28 and at most the end day |
| Recurrence.PreviewOvercountsShortEnd | frontend/src/App.jsx:1238-1242 | 15 January to 10 April 2023: the preview says 4, the loop creates 3 |
| Recurrence.PreviewOvercountsOverflow | frontend/src/App.jsx:1238-1242 | 31 January to 31 March 2023: the preview says 3, the loop creates 31 January and 3 March only |
| ClientViews.InPeriod | frontend/src/App.jsx:123-145 | current, last and next month compare the due month with today's month, shifted across the year; any other period passes every bill |
| ClientViews.PeriodsWrapTheYear | frontend/src/App.jsx:123-145 | in January "last month" is December of the previous year; in December "next month" is January of the next year; otherwise the same year |
| ClientViews.ChosenIsOneFilter | frontend/src/App.jsx:147-156 | filtering by status, then category, then period keeps exactly the bills that pass all three |
| ClientViews.FilteredPending | frontend/src/App.jsx:147-166 | the pending list is the filtered pending bills, sorted by ascending due date |
| ClientViews.FilteredPaid | frontend/src/App.jsx:168-187 | the paid list is the filtered paid bills, sorted by descending due date |
| ClientViews.ListsKeepTheirStatus | frontend/src/App.jsx:147-187 | every bill in the pending list is a pending bill from the input, and every bill in the paid list is a paid one |
| ClientViews.SliceBound | frontend/src/App.jsx:192 | a slice bound is clamped into the sequence and left alone when already inside it |
| ClientViews.TotalPagesIsCeiling | frontend/src/App.jsx:201-202 | the page count is ceil(n / k): enough pages for all items and no empty last page |
| ClientViews.PageIsAWindow | frontend/src/App.jsx:189-199 | page p is the slice [(p − 1)k, pk) of the list, at most k items long |
| ClientViews.PageItem | frontend/src/App.jsx:189-199 | item j of page p is item (p − 1)k + j of the list |
| ClientViews.ItemOnItsPage | frontend/src/App.jsx:189-199 | every item appears on page i / k + 1 at position i mod k |
| ClientViews.PagesInRange | frontend/src/App.jsx:189-202 | pages 1..totalPages are non-empty and later pages are empty |
| ClientViews.PageButtonsStayInRange | frontend/src/App.jsx:1593-1604 | previous and next keep the page within [1, totalPages], moving by one unless at an end |
| ClientViews.BillsDueToday | frontend/src/App.jsx:205-217 | the due-today alert holds exactly the pending bills due today |
| ClientViews.DueOnIsToday | frontend/src/App.jsx:205-230 | the timestamp comparisons mean "due date equals today" and "due date before today" |
| ClientViews.BillsOverdue | frontend/src/App.jsx:219-240 | the overdue alert holds the pending bills due before today, oldest first |
| ClientViews.AlertsArePendingAndDisjoint | frontend/src/App.jsx:205-240 | both alerts hold only pending bills from the input, and no bill is in both |
| Notifications.Destination | backend/server.js:1020-1024 | the address is `notification_email`, else `email`; there is none iff both are falsy |
| Notifications.DaysUntil | backend/server.js:1047 | `ceil((due − now) / day)`: the smallest k with due − now <= k days |
| Notifications.DaysUntilFromToday | backend/server.js:1047 | at a moment of today, the rounded-up difference is the count of calendar days from today to the due date |
| Notifications.TimeMessageWording | backend/server.js:1048-1050 | the wording is "HOJE" iff 0 days, "AMANHÃ" iff 1 day, and otherwise "em N dias" |
| Notifications.Subject | backend/server.js:1052-1058 | the subject starts with the URGENTE prefix iff urgent, and is otherwise the reminder subject |
| Notifications.BoletoAttachment | backend/server.js:1104-1115 | a boleto is attached iff the bill names one and the file exists, under its original name or `boleto.pdf` |
| Notifications.Dispatch | backend/server.js:1015-1153 | no address: nothing; no credentials: record only; credentials: a sent mail with its record, or a failure with no record |
| Notifications.DispatchContents | backend/server.js:1126-1134 | the record names the user and bill, is an e-mail stamped now, and carries the subject or the plain reminder text; the mail goes to the destination |
| Notifications.RecordsOf | backend/server.js:1126-1134 | a dispatch adds a record iff it saved without mail or sent the mail |
| Notifications.FindUser | backend/server.js:1169-1172 | the owner lookup returns a user with that id, or none when no user has it |
| Notifications.RegularCountBound | backend/server.js:1208-1244 | the regular sweep's count lies between 0 and the number of bills examined |
| Notifications.RegularRecordsInWindow | backend/server.js:1183-1229 | every record the regular sweep writes is for an examined bill and its owner, with today in [due − N days, due] and no earlier record |
| Notifications.RegularSkipsNotified | backend/server.js:1177-1206 | no bill that already had a record gets a regular reminder |
| Notifications.RegularReachesEligible | backend/server.js:1205-1216 | an eligible bill with an address whose delivery does not fail gets a record |
| Notifications.DueTodayIsSameDate | backend/server.js:1253-1267 | the [00:00, 23:59:59.999] window means the due date is today, and the bill is pending |
| Notifications.UrgentCandidates | backend/server.js:1253-1267 | the urgent sweep examines only pending bills of the input due today |
| Notifications.UrgentRunAppendsWithCooldown | backend/server.js:1273-1312 | the urgent sweep only appends; its count is at most the bills examined; no appended record repeats a (user, bill) pair seen in the previous three hours |
| Notifications.UrgentRespectsCooldown | backend/server.js:1282-1297 | a pair notified in the last three hours gets no new urgent record |
| Notifications.UrgentStepAborts | backend/server.js:1273-1277 | one step aborts iff the sweep had aborted or the bill's owner is missing |
| Notifications.UrgentAbortsOnMissingOwner | backend/server.js:1273-1277 | the urgent sweep aborts iff some examined bill has no owner |
| Notifications.UrgentStepGrows | backend/server.js:1273-1312 | one step of the urgent sweep keeps the ledger it was given as a prefix |
| Notifications.UrgentLedgerGrows | backend/server.js:1273-1312 | the ledger after the first n bills is a prefix of the ledger after all of them |
| Notifications.UrgentEntriesNameCandidates | backend/server.js:1272-1310 | every entry the urgent sweep appends names one of the bills it examined |
| Notifications.UrgentStepAppends | backend/server.js:1280-1305 | a bill with an owner, an address, no entry in the last three hours and a mail not rejected gets exactly one entry, for its owner, at the current time |
| Notifications.UrgentFreshBefore | backend/server.js:1272-1297 | with every owner so far present and distinct bill ids, the sweep reaches the i-th bill without aborting and without an entry for it |
| Notifications.UrgentReachesEligible | backend/server.js:1273-1312 | a bill due today with an owner, an address, no entry in the last three hours and a mail not rejected gets an urgent entry, when no earlier bill aborts the sweep |
| Notifications.UrgentAbortIsFinal | backend/server.js:1273-1312 | once aborted, the later bills change nothing |
| Notifications.UrgentEntryBlocksRegular | backend/server.js:1177-1206 | a bill with an urgent record gets no later regular reminder |
| Notifications.UrgentSubjectSaysToday | backend/server.js:1047-1058 | a sent urgent mail for a bill due today has the subject "URGENTE - Lembrete: <name> vence HOJE" |
| Notifications.NotificationLedger.constructor | backend/server.js:1015-1153 | the ledger starts with the stored records |
| Notifications.NotificationLedger.SendNotification | backend/server.js:1015-1153 | appends exactly the dispatch's record, and throws iff delivery failed |
| Notifications.NotificationLedger.CheckUpcomingBills | backend/server.js:1155-1249 | examines the pending bills with an owner; appends the regular sweep's records for the ledger read at its start; returns their count |
| Notifications.NotificationLedger.RemindAll | backend/server.js:1183-1229 | the loop appends each bill's record in order and counts the successful sends |
| Notifications.NotificationLedger.RemindOne | backend/server.js:1183-1219 | one bill: a send is made iff it is in its window and not yet notified; a failure is caught and not counted |
| Notifications.NotificationLedger.CheckBillsDueToday | backend/server.js:1251-1332 | the ledger becomes the urgent sweep's ledger over the bills due today; the count is returned unless the sweep aborted |
| Notifications.NotificationLedger.UrgentAll | backend/server.js:1273-1327 | the loop's ledger and count are the urgent sweep's |
| Notifications.NotificationLedger.UrgentOne | backend/server.js:1273-1311 | one bill of the urgent loop changes the ledger and the count as one urgent step |
| BillUpdates.PartNumberOfDigits | backend/server.js:620 | a piece of decimal digits converts to its value, leading zeros included |
| BillUpdates.PartNumberOfTrim | backend/server.js:620 | the number conversion ignores surrounding JavaScript whitespace |
| BillUpdates.ParsePieces | backend/server.js:619-620 | a text that splits into three readable pieces parses to the local date of their values |
| BillUpdates.ParseThreeParts | backend/server.js:564-565 | digits "Y-M-D" become the local date (Y, M − 1, D), normalised |
| BillUpdates.DueDateRoundTrip | backend/server.js:619-621 | a valid date from year 100 on, printed as YYYY-MM-DD, parses back to itself |
| BillUpdates.TwoDigitYearsShift | backend/server.js:619-621 | years 0–99 are read as 1900–1999: "0050-01-01" becomes 1 January 1950 |
| BillUpdates.TrailingWhitespaceIgnored | backend/server.js:619-621 | a due date followed by one whitespace character parses to the same date as without it |
| BillUpdates.NullIfFalsy | backend/server.js:616 | a falsy category becomes null, and any other value is kept |
| BillUpdates.AcceptedDateParses | backend/server.js:602 | a due date the `isDate` validator accepts parses exactly when it has no `/`; a dash-separated one from year 100 on parses to the very date the validator checked |
| BillUpdates.EscapeRemovesMarkup | backend/server.js:599-600 | after `escape()` no quote, apostrophe, angle bracket, slash, backslash or backtick is left |
| BillUpdates.EscapeKeepsPlainText | backend/server.js:599-600 | `escape()` leaves a text without `&` and those characters unchanged |
| BillUpdates.EscapeLengthens | backend/server.js:599-600 | `escape()` never shortens a text, and lengthens any text holding `<` |
| BillUpdates.EditTouchesOnlyGivenFields | backend/server.js:599-624 | the edit writes only the fields given; a given name and a kept category hold no markup; a blank category becomes null; the owner, status, `paid_at`, files and PIX text are unchanged; `updatedAt` is now unless nothing changed; the paid/`paid_at` invariant is kept |
| BillUpdates.EditBill | backend/server.js:594-637 | a body the validators refuse gives 400 and a bill not owned gives 404; a due date that reads as an invalid date, or an edit that breaks the schema, gives 500; all four leave the store unchanged; otherwise the stored bill becomes the edited, re-stamped bill |
| BillUpdates.AssignFields | backend/server.js:615-622 | assigning the fields changes the document's data to the assigned bill, marks the document modified exactly when that changes a value, and leaves the status flag alone |
| BillUpdates.AssignedChanges | backend/server.js:615-622 | the assignments change the bill exactly when some given field differs from the stored one |
| BillUpdates.EndOfDay | backend/server.js:667 | a given payment day is stamped within that day, at 23:59:59.999 |
| BillUpdates.StatusPaidAt | backend/server.js:659-680 | `paid_at` is set iff the new status is paid: inside the given day, or now |
| BillUpdates.ChangeStatus | backend/server.js:639-733 | a bad id, status or `paid_at` gives 400, an unreadable `paid_at` on a paid status 500 and a bill not owned 404, all with the store unchanged; otherwise exactly that bill changes, in status, `paid_at` (set iff paid) and `updatedAt` (now) only |
| BillUpdates.RepayingRestampsPaidAt | backend/server.js:660-677 | marking a paid bill paid again without a date replaces its `paid_at` with now |
| BillUpdateApi.PathSegments | api/bills-update.js:56-58 | the non-empty segments of the path before `?`, none containing `/` |
| BillUpdateApi.IndexOf | api/bills-update.js:59 | the first position of the segment, or −1 iff it is absent |
| BillUpdateApi.PathId | api/bills-update.js:56-64 | an id from the path is the non-empty segment after `bills` |
| BillUpdateApi.RequestId | api/bills-update.js:54-64 | `req.query.id` when truthy, else the path id; a found id is never empty |
| BillUpdateApi.PathIdOfBillsRoute | api/bills-update.js:54-64 | on `/api/bills/<id>`, with or without a query string, the id is found |
| BillUpdateApi.PatchOf | api/bills-update.js:117-128 | the update fails iff the due date is null or does not parse; otherwise the patch carries the given fields, falsy category and PIX text as null, and `updatedAt` now |
| BillUpdateApi.PaddedDueDateStored | api/bills-update.js:122-125 | a due date with a trailing space, "2024-06-10 ", is stored as 10 June 2024 |
| BillUpdateApi.BuildPatch | api/bills-update.js:117-128 | building `updateData` field by field gives the patch |
| BillUpdateApi.PatchWritesOnlyGivenFields | api/bills-update.js:117-128 | only the fields in the body change; a falsy category or PIX text becomes null; `updatedAt` is now; status and `paid_at` are untouched |
| BillUpdateApi.PatchIsIdempotent | api/bills-update.js:117-128 | applying the same patch twice stores the same bill as applying it once |
| BillUpdateApi.Handle | api/bills-update.js:39-114 | OPTIONS is 200 and other methods 405; no token is 401; no id is 400; a body string that is not JSON is 500; an id that is not an ObjectId is 500; an id that is absent or owned by someone else is 404; an owned DELETE removes the bill, or is 500 with nothing removed when the bill has a stored file; an owned PATCH stores and returns the patched bill, or is 500 when the due date cannot be read; the store changes only for an owned bill |
| Categories.Create | backend/server.js:399-439 | invalid fields give 400; a name equal, ignoring case, to one of the owner's categories gives 409; a trimmed name longer than 50 UTF-16 units is refused by `save()` with 500 (backend/models/Category.js:9); otherwise the new category is appended |
| Categories.Update | backend/server.js:442-490 | a bad id or fields give 400; a category not owned gives 404; a name taken by another category gives 409; a changed name longer than 50 UTF-16 units gives 500, and such a request with no clash always does; otherwise only that category changes |
| Categories.Delete | backend/server.js:493-527 | a bad id gives 400; a category not owned gives 404; a category used by bills gives 400 with the count; otherwise it is removed |
| Categories.AstralNameRefusedOnSave | backend/server.js:404-437 | a name of 26 to 50 characters outside the Basic Multilingual Plane passes the route's length check but is refused by the schema, so creation answers 500 |
| Categories.CreatePreservesWellFormed | backend/server.js:413-420 | creating keeps names unique per owner, ignoring case, and ids unique |
| Categories.UpdatePreservesWellFormed | backend/server.js:463-473 | renaming keeps names unique per owner, ignoring case, and ids unique |
| Categories.DeletePreservesWellFormed | backend/server.js:520 | deleting keeps the store well formed |
| ReportQuery.BuildQuery | backend/server.js:1802-1829 | the query is the caller's bills; the explicit range when both dates are given, else from `new Date(y, m - 1, 1)` to `new Date(y, m, 0)` with the two-digit year widened; category "todas" and status "todos" add no filter |
| ReportQuery.Select | backend/server.js:1831 | the report lists exactly the matching bills, by ascending due date |
| ReportQuery.MonthRangeIsTheMonth | backend/server.js:1813-1818 | a valid date lies in the month range iff it is in month m of year y, or of year 1900 + y when y is from 0 through 99 |
| ReportQuery.ParseFormat | backend/server.js:1837-1862 | the format is chosen case-insensitively: zip, excel or xlsx, csv, and PDF otherwise |
| ReportRows.Rows | backend/server.js:1727-1736 | one row per bill, in order, each the bill's projection |
| ReportRows.RowsCarryTotal | backend/server.js:1727-1736 | the rows' amounts add up to the report total |
| Spreadsheet.Grid | backend/server.js:1658-1665 | one line of eight cells per bill, in order |
| Spreadsheet.RowCells | backend/server.js:1658-1665 | a row writes columns 1 to 8 of its line with the cells in order |
| Spreadsheet.Stripe | backend/server.js:1669-1671 | a stripe covers columns 1 to 8 of its line |
| Spreadsheet.WriteOneRow | backend/server.js:1650-1686 | writing one more bill extends the written area by exactly its line |
| Spreadsheet.ShadeOneRow | backend/server.js:1650-1686 | only even-indexed bills add a stripe |
| Spreadsheet.Worksheet.constructor | backend/server.js:1650-1686 | a new sheet has no cells and no fill |
| Spreadsheet.Worksheet.WriteBillRows | backend/server.js:1650-1686 | below the header, line i holds bill i's cells; every other cell is unchanged; every other line from the first is striped |
| Spreadsheet.Worksheet.WriteRow | backend/server.js:1651-1672 | one bill writes its line and stripes it when its index is even |
| Spreadsheet.Worksheet.ShadeRow | backend/server.js:1668-1672 | shading adds the stripe and leaves the cells alone |
| PdfReport.PageHeight | backend/server.js:1400-1410 | the page is A4 height or exactly tall enough for header, table, rows and footer, whichever is more |
| PdfReport.PageHeightSteps | backend/server.js:1404-1410 | up to 18 bills fit A4; from 19 on, each bill adds one row height |
| PdfReport.LegendCategories | backend/server.js:1463 | the legend lists each truthy category of the bills once, and only those |
| PdfReport.FirstUse | backend/server.js:1463 | the index of the first bill carrying a category, or the number of bills when none does |
| PdfReport.FirstUseSnoc | backend/server.js:1463 | appending a bill does not move the first use of a category already used |
| PdfReport.FirstUseNew | backend/server.js:1463 | a category no earlier bill carries is first used by the appended bill |
| PdfReport.FirstUseOrderSnoc | backend/server.js:1463 | appending a bill keeps the order of first use, and a category it brings in comes last |
| PdfReport.FirstUseOrderKeep | backend/server.js:1463 | appending a bill that brings no new category keeps the order of first use |
| PdfReport.LegendInFirstUseOrder | backend/server.js:1463 | the legend lists its categories in the order in which the bills first use them, as a `Set` keeps insertion order |
| PdfReport.CategoryColors | backend/server.js:1395-1398 | the colour table has an entry for every category name and no others |
| PdfReport.LastOfNameInit | backend/server.js:1395-1398 | a category that is the last of its name stays so when a later category is dropped, and its name differs from that later one |
| PdfReport.CategoryColorsOfLast | backend/server.js:1395-1398 | each name's colour is `color || '#3b82f6'` of the last category with that name, as later assignments overwrite earlier ones |
| PdfReport.LayLegend | backend/server.js:1465-1485 | legend entry i sits in column i mod 4 and row i / 4, with its colour or the grey fallback |
| PdfReport.TableLinesAt | backend/server.js:1521-1583 | table line i is bill i's line, 18 points below line i − 1 |
| PdfReport.LayTable | backend/server.js:1521-1583 | the table loop lays out the bills' lines from 20 points below the table top |
| PdfReport.LayOutPdf | backend/server.js:1392-1598 | page height by bill count; no legend or table without bills; otherwise a legend entry per category on the 4-wide grid and a line per bill |
| ZipArchive.SafeName | backend/server.js:1771 | the safe name has one character per UTF-16 code unit of the bill name |
| ZipArchive.SafeNameCharacters | backend/server.js:1771 | only letters, digits and `_` remain, and inside the Basic Multilingual Plane each character outside [A-Za-z0-9] becomes `_` and the others are kept |
| ZipArchive.ZipEntries | backend/server.js:1761-1785 | the archive holds the report, then each bill's existing boleto and receipt in bill order |
| ZipArchive.AddEntries | backend/server.js:1768-1784 | one bill adds its existing attachments and no others |
| ZipArchive.AttachmentsShape | backend/server.js:1767-1785 | at most two attachments per bill, all under `anexos/` |
| ZipArchive.EntriesUnderAnexos | backend/server.js:1767-1785 | every attachment entry of one bill is named under `anexos/` |
| ZipArchive.EntryNameUnderAnexos | backend/server.js:1771-1780 | a boleto or receipt entry name starts with `anexos/` |
| ZipArchive.NothingOnDisk | backend/server.js:1767-1785 | missing files are skipped: with none on disk the archive holds only the report |
| ZipArchive.EntryNamesDiffer | backend/server.js:1771-1780 | attachments of different bills never share a name |
| ZipArchive.PositionReadBack | backend/server.js:1771-1780 | the 1-based position can be read back from an entry name |
| ZipArchive.DigitsAfter | backend/server.js:1771-1780 | the decimal digits printed after any prefix read back, up to the next dash, as the printed number |
| Text.TrimStart | frontend/src/security.js:113 | leading JavaScript whitespace is removed and nothing else |
| Text.TrimEnd | frontend/src/security.js:113 | trailing JavaScript whitespace is removed and nothing else |
| Text.SplitJoin | api/bills-update.js:57-58 | joining the split parts with the separator gives the text back |
| Text.AsciiLower | backend/security-config.js:259 | each letter A–Z is lowered and every other character kept |
| Text.Utf16Length | backend/server.js:1771 | a JavaScript string's `length` is between its character count and twice that, and equals the count inside the Basic Multilingual Plane |
| Text.Contains | backend/security-config.js:223 | `includes` holds iff the text occurs at some position |
| Sequences.SortBy | backend/server.js:1831 | the result is sorted by the key and is a permutation of the input |
| ClientSecurity.SanitizeInput | frontend/src/security.js:4-14 | non-strings are returned unchanged; strings come out with no `<`, `>`, `"`, `'` or `/`, and never shorter |
| ClientSecurity.EscapeRemovesMarkup | frontend/src/security.js:7-13 | the escape chain leaves none of the five markup characters |
| ClientSecurity.EscapeNeverShrinks | frontend/src/security.js:7-13 | escaping never shortens the text |
| ClientSecurity.PlainTextUnchanged | frontend/src/security.js:7-13 | text with no markup character and no `&` is unchanged |
| ClientSecurity.AmpersandSurvives | frontend/src/security.js:7-13 | text with a markup character or `&` comes out holding an `&` |
| ClientSecurity.SanitizeTwiceDiffers | frontend/src/security.js:7-13 | escaping is not idempotent: escaping changed text again changes it again |
| ClientSecurity.LessThanDoubleEncoded | frontend/src/security.js:8-13 | `<` becomes `&amp;lt;`, because `&` is escaped last |
| ClientSecurity.ValidatePassword | frontend/src/security.js:23-45 | valid iff at least 8 UTF-16 code units with an upper-case letter, a lower-case letter, a digit and one of `@$!%*?&`; the score counts the rules met, 0 to 5, and is 5 iff valid |
| ClientSecurity.ScoreCounts | frontend/src/security.js:43 | filtering the rule values for truth counts the rules met |
| ClientSecurity.FailingKeys | frontend/src/security.js:101-103 | no error keys iff every check passed |
| ClientSecurity.ValidateFile | frontend/src/security.js:79-105 | valid iff the type is allowed, the size is at most 10 MiB and the name is `[A-Za-z0-9._-]+`; valid iff there are no errors |
| ClientSecurity.ChecksReport | frontend/src/security.js:92-104 | the errors are exactly the failing checks in the order type, size, name |
| ClientSecurity.SanitizeField | frontend/src/security.js:112-116 | a string is trimmed and escaped; any other value is kept |
| ClientSecurity.SanitizeOneMore | frontend/src/security.js:111-117 | one loop step sanitises one more field and keeps the rest |
| ClientSecurity.SanitizedAll | frontend/src/security.js:108-120 | when no field is left, every field of the form is sanitised |
| ClientSecurity.SanitizeFormData | frontend/src/security.js:108-120 | the result has exactly the form's keys, each mapped to its sanitised value |
| ClientSecurity.SanitizedFormIsClean | frontend/src/security.js:108-120 | non-string values are unchanged and no string value has markup left |
| ClientSecurity.CheckTokenExpiry | frontend/src/security.js:142-153 | renew when the token cannot be decoded, or when it expires within an hour; a missing `exp` never renews, a null one counts as 0 |
| ClientSecurity.RenewalStaysDue | frontend/src/security.js:142-153 | once renewal is due, it stays due as time passes |
| ServerSecurity.CsrfProtection | backend/security-config.js:55-71 | GET, HEAD and OPTIONS pass; other methods pass iff a non-empty session token equals the header token, or the body token when the header is falsy |
| ServerSecurity.DnsProtection | backend/security-config.js:91-108 | the host passes iff it is `localhost:3001`, `127.0.0.1:3001` or the configured host |
| ServerSecurity.StartsWithAny | backend/security-config.js:186 | true iff some listed prefix starts the text |
| ServerSecurity.ValidateRequestOrigin | backend/security-config.js:178-187 | Origin, else Referer, must start with one of the three allowed origins |
| ServerSecurity.NoOriginNoAccess | backend/security-config.js:185-186 | without Origin and Referer the request is refused |
| ServerSecurity.PrefixOfAllowedOriginAccepted | backend/security-config.js:178-187 | any Origin starting with `http://localhost:3001` is accepted |
| ServerSecurity.EveryByteIsPrefix | backend/security-config.js:166 | checking every signature byte means the buffer starts with the signature |
| ServerSecurity.ValidateFileSignature | backend/security-config.js:154-167 | a type without a signature is refused; otherwise the file passes iff it starts with the signature |
| ServerSecurity.PngHeaderAccepted | backend/security-config.js:157 | a buffer starting with the PNG magic number passes as `image/png` |
| ServerSecurity.AllowedTypesWithoutSignature | backend/security-config.js:155-164 | of the allowed types, exactly GIF and plain text have no signature, so they are always refused |
| ServerSecurity.ValidateUrl | backend/security-config.js:214-232 | a URL passes iff it parses, is `https:`, and its host contains none of the shortener names |
| ServerSecurity.SubstringBlocksUnrelatedHosts | backend/security-config.js:223 | `https://microsoft.com` is refused because its host contains `t.co` |
| ServerSecurity.ValidateUrlByDomain | backend/security-config.js:214-232 | a URL passes iff it parses, is `https:`, and its host is not a shortener domain or a subdomain of one |
| ServerSecurity.ByDomainNeverStricter | backend/security-config.js:214-232 | the domain check accepts every URL the substring check accepts |
| ServerSecurity.ByDomainBlocksShorteners | backend/security-config.js:217-225 | a shortener domain and its subdomains are still refused |
| ServerSecurity.ByDomainAcceptsMicrosoft | backend/security-config.js:223 | `https://microsoft.com` passes the domain check |
| ServerSecurity.DetectSuspiciousEmail | backend/security-config.js:235-244 | suspicious iff a non-ASCII character, a character repeated four times, three dots after an `@` on one line, or four digits in a row |
| ServerSecurity.ValidateUserAgent | backend/security-config.js:250-265 | a missing user agent is refused; otherwise it passes iff its lower-cased text contains no listed word |
| ServerSecurity.CurlRejected | backend/security-config.js:250-265 | a `curl/…` user agent is refused |
| ServerSecurity.UserAgentCaseInsensitive | backend/security-config.js:259 | lower-casing the user agent first does not change the verdict |

## Left out

- Time zones, daylight saving time and the UTC shift of `toISOString`. All instants are in one local zone with fixed-length days, so the date the client sends for a recurring bill (frontend/src/App.jsx:385) is its local date.
- Floating-point amounts and `toFixed` formatting: amounts are integer cents.
- MongoDB, mongoose and ObjectId: the store is a map passed in and returned. An ObjectId is any 24 hex characters. The clock behind the `timestamps` option and `new Date()` is the parameter `now`.
- JWT verification, base64 and JSON decoding of the token: `ClientSecurity.CheckTokenExpiry` takes the decoded payload, and the handlers take the caller's id.
- BillUpdateApi.PatchOf: a due date with fewer than three dash-separated pieces, or with a piece that JavaScript's number conversion reads as `NaN`, becomes an invalid `Date` that the source hands to the driver and stores. The model answers 500 and stores nothing, because a bill's due date has no invalid value. A due date that is a JSON number, boolean, array or object (which has no `split` and throws) is outside the model's `Body`, whose due date is a string or `null`.
- BillUpdateApi.BuildPatch: refuses the same due dates as `BillUpdateApi.PatchOf`, for the same reason.
- BillUpdateApi.Handle: answers 500 with the store unchanged for the due dates `BillUpdateApi.PatchOf` refuses, where the source stores an invalid date and answers 200. The body is taken as already decoded: `JSON.parse` itself is not modelled, only its outcome, a parsed object or a refused string (500).
- BillUpdates.PartNumber: JavaScript's string-to-number conversion is modelled for surrounding whitespace, the empty string (0), an optional `+` and decimal digits. Fractions, exponents, `0x`/`0o`/`0b` prefixes and `Infinity` read as `NaN` in the model. The `Date` constructor's fractional truncation and its time-value range limit are not modelled.
- BillUpdates.IsDateText: validator.js's `isDate` with its default options, for words of decimal digits. Words that are not digits are refused, and so is a text with fewer than three words. The library's versions differ in how they read such words, and the version in use is not pinned.
- BillUpdates.EditAccepted: `isLength` counts code points. Newer validator.js versions also skip the presentation selectors U+FE0E and U+FE0F, which the model counts.
- The single-bill branch of `addNewBill` is a single POST with nothing to prove beyond the server's validation.
- Recurrence.AddRecurring: the number of bills is tied to `Recurrence.MonthsCovered` only for start days 1 to 28. For days 29 to 31 the count follows from the schedule itself, but no closed form is proved.
- Mail bodies (HTML and text), fonts, colours other than the stripe fill, the PDF's link URLs and CSV number formatting. The model stops at the data handed to nodemailer, pdfkit, ExcelJS, csv-writer and archiver. The bytes they produce are not modelled.
- ReportQuery.Download: the file name and content type of each format carry no contract beyond their definition.
- Text.AsciiLower: `toLowerCase` beyond ASCII is not modelled; the user-agent and report-format checks lower only A–Z.
- The repeated-character e-mail pattern compares UTF-16 code units in the source. The model compares characters, so it differs for characters outside the Basic Multilingual Plane.
- The order of keys in the object `sanitizeFormData` builds: the form is a map, so only keys and values are modelled.
- ServerSecurity.ValidateFileSignature: the signature lookup indexes a plain object, so a MIME type such as `constructor` or `toString` reaches an inherited member, and calling `every` on it throws a TypeError. The model has only the five listed signatures and returns false for every other type.
- ReportQuery.BuildQuery: the year and month come from `parseInt`; a parameter that is not a number gives NaN and an invalid date range, which is not modelled, because the model's year and month are integers.
- The category name check builds a regular expression from the unescaped name. The model uses literal case-insensitive equality over ASCII and Latin-1 letters, so a name with regex metacharacters behaves differently.
- In the serverless DELETE, a bill with a stored file fails with 500 (unimported `fs` and `path`). File removal on disk is not modelled.
- Cron scheduling and overlapping sweeps: each sweep is one sequential call.
- The HTTP middleware: helmet, CORS, rate limiting and slow-down, which are library wrappers.
- The other serverless handlers (`api/bills.js`, `api/categories.js`, `api/auth/*`, `api/user/notifications.js`). `api/user/notifications.js` and `api/auth/register.js` default `notification_days_before` to 1. The server's sweep defaults it to 3, which is what the model uses.
- Browser-only security code: CSRF meta tag lookup, clickjacking, SSL redirect, session clearing and backups.

## Findings

| source | as written | input that shows it | evidently intended | confidence | as-written member | corrected member |
|---|---|---|---|---|---|---|
| frontend/src/App.jsx:1238-1242 | the preview announces `(ey − sy)·12 + (em − sm) + 1` bills, whatever the days | 15 Jan 2023 to 10 Apr 2023: 4 announced, 3 created; 31 Jan 2023 to 31 Mar 2023: 3 announced, 2 created (the step from 31 January lands on 3 March) | announce the number of bills the loop creates: one per month in which the start day is reached | not executed | Recurrence.PreviewOvercountsShortEnd | Recurrence.MonthsCoveredCounts |
| backend/security-config.js:214-231 | a host is refused when it merely contains a shortener name as a substring | `https://microsoft.com` is refused because `microsoft.com` contains `t.co` | refuse a host that is a shortener domain or a subdomain of one | not executed | ServerSecurity.SubstringBlocksUnrelatedHosts | ServerSecurity.ValidateUrlByDomain |

The preview's as-written definition is `Recurrence.PreviewCount`. `Recurrence.PreviewOvercountsOverflow` gives its second counterexample. The corrected count is `Recurrence.MonthsCovered`, and `Recurrence.AddRecurring` states the created count in its terms. `ServerSecurity.ValidateUrl` is the substring check as written. `ServerSecurity.ByDomainNeverStricter`, `ServerSecurity.ByDomainBlocksShorteners` and `ServerSecurity.ByDomainAcceptsMicrosoft` state what the domain check keeps and what it fixes.

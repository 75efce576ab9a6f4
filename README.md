# Staff attendance tracker: verified model of the attendance store and its decision rules

This project models the front end of a staff attendance tracker in Dafny. Staff mark each
calendar day as working, leave or holiday, optionally with a place and purpose of visit and
the hours worked. The model covers:

- **The attendance store** (`attendance_service.dfy`, module `AttendanceService`). One storage
  slot holds the whole list of records. Saving a record upserts it by its `yyyy-MM-dd` date:
  an existing record for that date is replaced at the same position and keeps its id;
  otherwise the record is appended. The list is written back to the slot, and only then is
  the record posted once to the spreadsheet web app. The result is `{success, error?}`.
  The store is a class (`AttendanceStore`) whose `slot` field is the storage slot and whose
  `effects` field records every storage write and web-app post in order. The pure
  specification `Upsert` carries the lemmas: one record per date is kept, ids are preserved
  on replace, records for other dates are unchanged and keep their order, and exactly one
  record has the saved date. The statistics (`ComputeStats`) count records per status and
  add up the hours.
- **The report** (`attendance_report.dfy`, module `AttendanceReport`). It covers the CSV
  export's rows and fields, with the purpose column quoted and its internal double quotes
  doubled as in rule 7 of section 2 of RFC 4180. It also covers the calendar's first-match
  lookup for a day, the working/off colouring of a day, and the newest-first in-place sort
  of the history list (an insertion sort over an `array`).
- **The mark-attendance form** (`mark_attendance.dfy`, module `MarkAttendance`). The form is a
  class holding the component's state. The submit handler is split at its one `await` into
  `BeginSubmit` and `FinishSubmit`, so the state while the save is awaited can be stated.
  The visit fields are blanked unless the status is Working. Nothing is saved without a
  selected day. The status message is chosen from the save result.
- **The application shell** (`app.dfy`, module `App`). It holds the current tab and the user,
  the sign-in, and the routing rule: protected tabs need an authenticated user, and unknown
  tabs show Home.
- **The shared data model** (`types.dfy`, module `Types`) and string helpers (`text.dfy`,
  module `Text`): decimal rendering of numbers and `join`/`split` on one character, each
  with its inverse.

Inputs that the code gets from the outside world become parameters:

- the random id becomes `freshId`;
- how the `fetch` ended becomes `SendOutcome`: `Completed` (the opaque `no-cors` response is
  never inspected) or `Threw`;
- the configured web-app address becomes the store's `webAppUrl`, where `""` means
  unconfigured. The source's address is the constant `SpreadsheetWebAppUrl`.

Dates are the `yyyy-MM-dd` strings the form produces with `format(selectedDate,
'yyyy-MM-dd')`. The history sort compares `DateKey(date)`, which is yyyy·10000 + MM·100 + dd.
It stands in for `new Date(date).getTime()` and orders valid calendar dates the same way:
`DateKeyOrder` shows one key is smaller exactly when its (year, month, day) comes first.
`DateKeyInjective` shows it identifies a `yyyy-MM-dd` key, so the sort and the upsert agree on
what "the same day" is.

## Model

| member | source | states |
|---|---|---|
| `Types.StatusCode` | types.ts:2-6 | Each status's string value is non-empty and holds no comma, newline or double quote, so it goes into a CSV column unquoted. `StatusCodeInjective`: distinct statuses have distinct codes. |
| `Types.ParseStatus` | types.ts:2-6 | Reading a status code back is the inverse of the enum's string values: it yields a status exactly when the code is `working`, `leave` or `holiday`, and that status's code is the input. |
| `AttendanceService.AttendanceStore.constructor` | services/attendanceService.ts:4-7 | The store starts with the given web-app address, the given slot contents (`None` when nothing is stored) and no effects. |
| `AttendanceService.AttendanceStore.GetAttendance` | services/attendanceService.ts:10-13 | With nothing stored the list is empty; otherwise it is the stored list. |
| `AttendanceService.FirstIndexOfDate` | services/attendanceService.ts:23 | `findIndex` by date: -1 exactly when no record has the date; otherwise the index holds the date and no earlier index does. |
| `AttendanceService.FindIndexByDate` | services/attendanceService.ts:23 | The linear search (loop with invariants) returns exactly the first index holding the date, or -1. |
| `AttendanceService.AttendanceStore.SaveAttendance` | services/attendanceService.ts:15-55 | The slot afterwards holds the upsert of the previous list with the new record. The effects gain first the storage write of that list, then (only if an address is configured) one post whose body carries the freshly generated id, never the preserved stored id. The result is `SyncOutcome` of the configuration and the send. One record per date is preserved. |
| `AttendanceService.Upsert` | services/attendanceService.ts:23-28 | The list grows by one exactly when no record had the date. Afterwards the first record for the date is the saved record up to its id. Every record for another date keeps its index. |
| `AttendanceService.UpsertReplacesInPlace` | services/attendanceService.ts:23-25 | Saving a date already present keeps the length and replaces the first record for that date at the same index. The stored record keeps the old id and takes every other field from the new record. All other indices are unchanged. |
| `AttendanceService.UpsertAppends` | services/attendanceService.ts:26-27 | Saving a date not present appends exactly that record at the end; the length grows by one. |
| `AttendanceService.UpsertKeepsOtherDates` | services/attendanceService.ts:23-28 | The records for other dates are the same records in the same order before and after a save. |
| `AttendanceService.UpsertKeepsUniqueDates` | services/attendanceService.ts:23-28 | If the list had at most one record per date, it still has after a save, and a record with the saved date exists, so exactly one does. |
| `AttendanceService.UpsertSameDateTwice` | services/attendanceService.ts:23-28 | Two saves for the same date leave one record for it, at the index of the first save. That record has the id the first save stored and every other field from the second save. |
| `AttendanceService.SyncOutcome` | services/attendanceService.ts:32-54 | Unconfigured gives `{success: true}`. A completed send gives `{success: true}` without looking at the response. A send that throws gives `{success: false, error: 'Connection error. Data saved on your device.'}`. An error is present exactly when success is false. |
| `AttendanceService.Filter` | services/attendanceService.ts:59-61 | `filter` by status: every kept record has the status and comes from the list; every record of the list with the status is kept. |
| `AttendanceService.FilterMultiset` | services/attendanceService.ts:59-61 | The filter holds each record with the status exactly as many times as the list does, and no other record. So its length, which `getStats` reports, is the number of records with that status. |
| `AttendanceService.SumHours` | services/attendanceService.ts:62 | `reduce` of the hours from 0, an absent value counting as 0: with no negative hours the total is not negative. |
| `AttendanceService.SumHoursFirst` | services/attendanceService.ts:62 | The left fold can be peeled from the front as well: the total is the first record's hours plus the total of the rest. |
| `AttendanceService.StatusPartition` | services/attendanceService.ts:59-61 | The working, leave and holiday counts add up to the number of records. |
| `AttendanceService.ComputeStats` | services/attendanceService.ts:57-64 | `workingDays + leaveDays + holidayDays` is the number of records, and the empty list gives all zeros. |
| `AttendanceService.StatsAppend` | services/attendanceService.ts:59-62 | One more record raises its status count by one and the total hours by its hours, an absent value counting as 0. |
| `AttendanceService.StatsAfterNewDate` | services/attendanceService.ts:57-64 | Saving a record for a new date changes the statistics by exactly that record. |
| `AttendanceService.ShippedConfigurationFailsOnlyOnThrow` | services/attendanceService.ts:7-50 | The shipped web-app address is non-empty, so the configured branch is the one taken: a save fails exactly when the post throws. |
| `AttendanceService.AttendanceStore.GetStats` | services/attendanceService.ts:57-64 | The statistics of the stored list: the counts add up to its length, and with nothing stored all are zero. |
| `Text.IntToString` | components/AttendanceReport.tsx:32 | The hours text is non-empty and holds no comma, newline or quote; it starts with `-` exactly for a negative number, and 0 (absent hours included) is written as exactly `0`. `NatToString` has no leading zero except for 0 itself. |
| `Text.IntToStringRoundTrip` | components/AttendanceReport.tsx:32 | The hours column's decimal text reads back as the same integer. |
| `AttendanceReport.EscapeQuotes` | components/AttendanceReport.tsx:31 | `replace(/"/g, '""')` never shortens the text. `EscapeQuotesLength`: it adds exactly one character per double quote. |
| `AttendanceReport.EscapeQuotesLength` | components/AttendanceReport.tsx:31 | The escaped text is longer than the original by exactly its number of double quotes. |
| `AttendanceReport.EscapeQuotesRoundTrip` | components/AttendanceReport.tsx:31 | After doubling every `"`, each quote stands in an adjacent pair, and un-doubling gives back the original text. |
| `AttendanceReport.PurposeField` | components/AttendanceReport.tsx:31 | The purpose field is always wrapped in double quotes, and reading it back yields the purpose, or the empty text when the purpose is absent (the field is then `""`). |
| `AttendanceReport.RowFields` | components/AttendanceReport.tsx:27-33 | A row has five fields. They are the date, the status code (which reads back as the record's status) and the place, empty when absent and neither quoted nor escaped. Then come the quoted purpose and the hours, which read back as the hours or 0 when they are absent or zero. Because the place is not quoted, a comma in it shifts the later columns (`PlaceCommaShiftsColumns`). |
| `AttendanceReport.RowText` | components/AttendanceReport.tsx:27-35 | A row is its fields joined by `,`; it begins with the record's date followed by a comma. `RowSplitsIntoFields` states when it splits back into its fields. |
| `AttendanceReport.Rows` | components/AttendanceReport.tsx:27-33 | `entries.map(...)`: one row per record. `ExportCsvSnoc` and `ExportCsvLines` state that the rows follow the order of the list the export is given. |
| `AttendanceReport.ExportCsv` | components/AttendanceReport.tsx:23-35 | No text is produced exactly when there are no records. |
| `AttendanceReport.ExportCsvSingle` | components/AttendanceReport.tsx:23-35 | The export of one record is the header line, `\n` and that record's row, for any record text (a multi-line purpose included). With `ExportCsvSnoc`, "the header line, then one row per record" holds for every non-empty list. |
| `AttendanceReport.ExportCsvSnoc` | components/AttendanceReport.tsx:35 | Rows follow the order of the list given to the export (the report's shared array, see `RenderThenExport`): exporting one more record appends `\n` and that record's row to the text. |
| `AttendanceReport.ExportCsvLines` | components/AttendanceReport.tsx:26-35 | When no record's text holds a newline, the export splits on `\n` into the header line and then one row per record. |
| `AttendanceReport.PlaceCommaShiftsColumns` | components/AttendanceReport.tsx:30 | The place column is written unquoted, so a place holding one comma (the form's own example "Client HQ, Site B") splits into two parts. The row then splits into six parts, and the quoted purpose lands in the fifth column, under "Hours Worked". |
| `AttendanceReport.RowSplitsIntoFields` | components/AttendanceReport.tsx:27-35 | When the date, place and purpose hold no comma, a row splits on `,` back into its five fields. |
| `AttendanceReport.StatusForDay` | components/AttendanceReport.tsx:19-21 | Nothing is found exactly when no record has that day; otherwise the result is the record at the first index with that day. |
| `AttendanceReport.ClassifyDay` | components/AttendanceReport.tsx:96-107 | A day is working exactly when its record's status is Working. It is off exactly when the status is Leave or Holiday, and unmarked exactly when it has no record. The three are mutually exclusive. |
| `AttendanceReport.DateKey` | components/AttendanceReport.tsx:145 | The key is -1 exactly for text that is not a `yyyy-MM-dd` key. Otherwise the key decodes back into the year (`key / 10000`), the month (`key / 100 % 100`) and the day (`key % 100`) written in the text. |
| `AttendanceReport.DateKeyOrder` | components/AttendanceReport.tsx:145 | For two `yyyy-MM-dd` keys, one sort key is smaller exactly when its (year, month, day) comes first in calendar order. |
| `AttendanceReport.DateKeyInjective` | components/AttendanceReport.tsx:145 | For two `yyyy-MM-dd` keys the sort key is equal exactly when the dates are equal. |
| `AttendanceReport.SortByKeyDescending` | components/AttendanceReport.tsx:145 | Sorting in place with the comparator `key(b) - key(a)` leaves keys non-increasing, and the array is a permutation of what it held. |
| `AttendanceReport.SortNewestFirst` | components/AttendanceReport.tsx:145 | The history array is sorted in place so that dates never increase (newest first), and it is a permutation of the records it held. |
| `AttendanceReport.RenderThenExport` | components/AttendanceReport.tsx:145 | The render sorts the shared `entries` array in place, newest first, and the export (lines 23-35) then reads that same array. The exported text is the export of the sorted array, so its rows come newest first rather than in stored order. Nothing is exported exactly when the array is empty. |
| `MarkAttendance.MarkAttendanceForm.constructor` | components/MarkAttendance.tsx:9-17 | The form starts with no day selected, not submitting, no message, status Working, empty place and purpose, and hours 8. |
| `MarkAttendance.MarkAttendanceForm.SelectDate` | components/MarkAttendance.tsx:101 | Clicking a day selects it and changes nothing else. |
| `MarkAttendance.MarkAttendanceForm.SetStatus` | components/MarkAttendance.tsx:158 | Picking a status changes only the status. |
| `MarkAttendance.MarkAttendanceForm.SetVisit` | components/MarkAttendance.tsx:180-190 | Typing the place or purpose changes only those two fields. |
| `MarkAttendance.MarkAttendanceForm.SetHours` | components/MarkAttendance.tsx:199-203 | The slider sets the hours within 1..24 and changes nothing else. |
| `MarkAttendance.SubmittedDraft` | components/MarkAttendance.tsx:33-39 | The submitted record carries the selected date, the status and the hours as a number, even for Leave and Holiday. Place and purpose carry the form text when the status is Working and are empty strings otherwise. |
| `MarkAttendance.GatedDraftVisit` | components/MarkAttendance.tsx:172-190 | With the `required` place and purpose inputs filled (the browser's gate in front of `onSubmit`, `RequiredFilled`), the submitted record has a non-empty place and purpose exactly when it is a working day. |
| `MarkAttendance.MessageFor` | components/MarkAttendance.tsx:43-47 | Success shows `'Success! Synced to Sheet.'`. Failure shows the reported error, or `'Sync failed, saved locally.'` when it is absent or empty. The message kind is success exactly when the save succeeded. |
| `MarkAttendance.SaveMessages` | components/MarkAttendance.tsx:43-47 | For every result the store can return, the message is either the success text or the connection-error text; the fallback is never shown. |
| `MarkAttendance.MarkAttendanceForm.BeginSubmit` | components/MarkAttendance.tsx:26-39 | With no day selected nothing changes and nothing is built. Otherwise the form is submitting, the message is cleared, and the record to save is `SubmittedDraft` of the form fields. Any record built has a `yyyy-MM-dd` date and hours within the slider's 1..24. |
| `MarkAttendance.MarkAttendanceForm.FinishSubmit` | components/MarkAttendance.tsx:41-47 | Once the save returns, the form is no longer submitting and shows `MessageFor` the result. |
| `MarkAttendance.MarkAttendanceForm.HandleSubmit` | components/MarkAttendance.tsx:26-47 | With no selected day there is no save call and no state change, in the form or in the store. Otherwise the store holds the upsert of the submitted record. The store's effects gain first the storage write of that list, then (only with a configured address) one post of the record with the fresh id. The result is the store's sync result, the form is not submitting, and it shows the message for that result. |
| `App.RenderContent` | App.tsx:24-42 | Login is shown exactly for a protected tab (`activity`, `mark`, `report`) without an authenticated user. Home is shown exactly for any other tab, `home` and unknown tabs alike, whatever the user. With an authenticated user each protected tab shows its own view. |
| `App.AppState.constructor` | App.tsx:12-13 | The app starts on tab `home` with no user, which shows Home. |
| `App.AppState.HandleLogin` | App.tsx:15-22 | Signing in always yields the authenticated demo user, with no credential check. After it no tab shows Login. |
| `App.AppState.SetTab` | App.tsx:12 | Switching tabs changes only the current tab. |

## Left out

- `AttendanceService.AttendanceStore.SaveAttendance`: the storage write is assumed to succeed. In the source `localStorage.setItem` (services/attendanceService.ts:29) sits outside the `try`, so a failing write (a full quota, for instance) makes `saveAttendance` reject before any post. `handleSubmit` then throws at its `await` (components/MarkAttendance.tsx:33), never reaches `setIsSubmitting(false)` (line 41), and the form stays in its submitting state.
- The `console.log` and `console.error` calls of the sync (services/attendanceService.ts:45, 48) are diagnostics and are not part of the effects trace.
- `MarkAttendance.MarkAttendanceForm.HandleSubmit`: the handler does not check the `required` place and purpose inputs itself; the browser refuses to fire `onSubmit` while a shown required input is empty. The model states that gate separately as `RequiredFilled`, and `GatedDraftVisit` states what it guarantees; `HandleSubmit` covers every form state, as the handler does.
- Storage is one abstract slot holding the list. `localStorage` and `JSON.stringify`/`JSON.parse` are not modelled, so a slot holding text that does not parse is outside the model.
- The network `fetch` (with `no-cors`) is reduced to its outcome, `SendOutcome`. The 800 ms delay of the unconfigured branch is timing and is left out.
- The random id (`Math.random().toString(36)`) is a parameter. The model does not claim ids are unique.
- `AttendanceReport.SortNewestFirst`: stability of the engine's sort is not stated. Keys that are not `yyyy-MM-dd` text sort last in the model (key -1). In the source, for most such text `new Date` gives `NaN` and the order is engine-defined. Text that `new Date` does parse (`2024-01-05T00:00`, `2024-01`, `2024`, and `2024/01/05` in every major engine) is ordered by time in the source but last in the model.
- `AttendanceReport.DateKey`: text of the `yyyy-MM-dd` shape that is not a calendar date (`2024-13-01`, `2024-00-00`, `2024-02-31`) gets an ordinary key in the model. In the source `new Date` gives an invalid date for month 13 or day 0 (so `getTime()` is `NaN` and the order is engine-defined), and V8 rolls an overflowing day such as 31 February into the next month, where other engines give an invalid date. The form only produces real calendar dates, so only hand-edited storage could hold such keys.
- `AttendanceReport.ExportCsv`: the export is a function of the list it is given. In the source that list is the component's `entries` array, which the history table's `entries.sort(...)` (components/AttendanceReport.tsx:145) reorders in place on every render. Once the report has rendered with data, an export therefore writes rows newest first, not in stored order. `RenderThenExport` states this one sequence. The model does not follow the array through React's state and renders beyond it (the same sorted array is also what `StatusForDay` searches on later renders, which does not change its result while dates are unique).
- `AttendanceReport.StatusForDay`: the source matches with `isSameDay(new Date(e.date), day)`. That parses the key as UTC midnight and compares local calendar days. The model matches keys by equality, so the time-zone shift of that comparison is not modelled.
- `hoursWorked` is an integer in the model. The source's numbers are floating point, and `Number(hours)` of the slider text is taken to be the slider's integer value.
- Date arithmetic and formatting from date-fns (month grids, `format`, `isSameDay`) are library calls and are not modelled. A selected day is its `yyyy-MM-dd` key.
- The CSV download itself (Blob, object URL, anchor click) is DOM work and is not modelled.
- The 3-second `setTimeout` form reset after a successful save is timing and is not modelled.
- The AI insight call (`services/geminiService.ts`) is an external text service and is not part of this model.
- The activity chart, home page, navigation bar and login screen are presentation and are not part of this model. The navigation bar appears only as `SetTab`.

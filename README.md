# ScanTrack attendance: a Dafny model

ScanTrack is a school attendance web app. Students carry a QR code whose
payload is their student id followed by `-QR`. A teacher scans it on the
QR-scanner page, which records the student as present in the selected
class. The app also has list pages for students and classes, an
attendance-history page with filters, a CSV report and a coloured rate
bar, a performance recorder, a teachers' page and a dashboard.

All of its data lives in one in-memory store (`src/lib/data.ts`). The store
holds three tables (students, classes and attendance records), and every
write replaces a table with a new list. This project models that store
and the rules the pages apply on top of it.

- `Seqs`, `Text` and `Tables` model the array and string operations the
  code relies on: `filter`, `find`, `toLowerCase`, `includes`, `split`,
  `join`, and find, replace or remove by id.
- `Data` holds the entities and the store. The store is a class whose
  three `seq` fields its methods reassign. The read-only queries and the
  attendance summary are functions.
- Each page or component the rules come from becomes one module. Its
  React state becomes the fields of a class, and its handlers become
  methods on that class. The rules the handlers apply are stated as
  functions and lemmas.

Ids are natural numbers, since the code only ever `parseInt`s them.
Timestamps are integers in milliseconds, and the calendar day of a
timestamp is `t / 86400000`. Whenever the code reads the clock, the model
takes a `now` parameter instead.

A few facts about the code shape the model.

- The attendance-history page reads the seed records, not the store.
  So does the dashboard, which sorts that shared seed array in place.
- The QR-scanner page looks students up in the seed list. A seed student
  deleted from the store therefore passes the scan checks, and only the
  store's own check then rejects the scan
  (`QrScannerPage.DeletedStudentScanFails`).
- The students and classes pages each keep their own copy of their list,
  seeded from the seed data, and write every change to the store as well.
  A change keeps the page's list equal to the store's table whenever the
  two were equal before it.
- Deleting a student or a class removes no attendance records, although
  both confirmation dialogs say that the related attendance records go
  too. Deleting a class also leaves its students in place.

## Model

| member | source | states |
|---|---|---|
| Seqs.Filter | src/lib/data.ts:263-265 | `filter` keeps exactly the elements that pass the test, in their original order (an order-preserving subsequence), each as many times as it occurs in the input |
| Seqs.FilterSplit | src/pages/AttendanceHistory.tsx:78-83 | filtering by a test and by its negation splits a list into two parts whose multisets and lengths add up to the whole |
| Seqs.FilterAppend | src/lib/data.ts:209-212 | filtering distributes over concatenation, so entries that stay keep their relative order |
| Seqs.FilterFilter | src/pages/AttendanceHistory.tsx:61-86 | filtering by one test and then by another is filtering once by their conjunction |
| Seqs.FilterExt | src/pages/Students.tsx:84-90 | two tests that agree on every element of a list filter it alike |
| Seqs.Find | src/lib/data.ts:255-257 | `find` is absent exactly when no element passes, and otherwise returns the first element that passes |
| Seqs.FindIsFirst | src/lib/data.ts:259-261 | the first match is unique: any passing element with no earlier match is what `find` returns |
| Text.Utf16Length | src/pages/Students.tsx:59-62 | JavaScript's `length`: between the number of characters and twice that, and equal to it exactly when no character lies outside the Basic Multilingual Plane |
| Text.LowerChar | src/pages/Students.tsx:86 | `toLowerCase` on one character: never an ASCII capital; a capital becomes the small letter at the same place in the alphabet, and any other character is kept |
| Text.Lower | src/pages/Students.tsx:86 | `toLowerCase`: the same length, each character lowered, and no ASCII capital left |
| Text.Includes | src/pages/Students.tsx:86 | `includes` holds whenever the needle is a prefix, and only when the needle is no longer than the text |
| Text.IncludesIffOccurs | src/pages/Students.tsx:86 | `includes` holds exactly when the needle occurs at some position of the text |
| Text.MatchesAny | src/pages/Students.tsx:85-89 | the `||` chain of the search: some field, lower-cased, includes the lower-cased term |
| Text.LowerIdempotent | src/pages/Students.tsx:86 | lower-casing twice is lower-casing once |
| Text.EmptyTermMatches | src/pages/Students.tsx:84-90 | an empty search term matches any entry |
| Text.MatchesAnyIgnoresCase | src/pages/Students.tsx:84-90 | a search term and its lower-cased form match the same entries |
| Text.Split | src/pages/QRScanner.tsx:70 | `split` returns at least one piece; no piece contains the separator; the first piece is a prefix that is either the whole text or ends just before the first separator |
| Text.SplitWithoutSeparator | src/pages/QRScanner.tsx:70 | a text without the separator splits into itself alone |
| Text.SplitAround | src/pages/QRScanner.tsx:70 | splitting `a + sep + b` splits `a` and `b` independently |
| Text.SplitAtSeparator | src/pages/AttendanceHistory.tsx:123 | a text holding the separator splits into two pieces or more |
| Text.SplitJoin | src/pages/AttendanceHistory.tsx:120-123 | joining pieces free of the separator and splitting again gives the pieces back |
| Text.Join | src/pages/AttendanceHistory.tsx:120-123 | `join`: one piece joins to itself; otherwise the text starts with the first piece followed by the separator |
| Text.NatToString | src/lib/data.ts:197 | the decimal text of an id is non-empty and made of digits |
| Text.ParseDigits | src/lib/data.ts:197 | `parseInt` of decimal digits is 0 exactly when every digit is 0 |
| Text.ParseDigitsNatToString | src/lib/data.ts:197 | `parseInt` of an id's decimal text returns the id |
| Tables.FindByKey | src/lib/data.ts:255-261 | lookup by id is absent exactly when no entry has the id; otherwise it is the entry at the first position holding that id |
| Tables.FindByKeyFirst | src/lib/data.ts:255-261 | when several entries share an id, lookup returns the one at the first such position |
| Tables.ReplaceByKey | src/lib/data.ts:204-207 | the length is kept, every entry with the argument's id becomes the argument, and every other entry is unchanged |
| Tables.RemoveByKey | src/lib/data.ts:209-212 | an entry stays exactly when its id differs from the removed id, and the entries that stay keep their order |
| Tables.ReplaceAbsentKey | src/lib/data.ts:204-207 | replacing by an id that no entry has leaves the table identical |
| Tables.ReplaceIdempotent | src/lib/data.ts:221-224 | replacing twice by the same entry is replacing once |
| Tables.RemoveAbsentKey | src/lib/data.ts:209-212 | removing an id that no entry has leaves the table identical |
| Tables.RemoveIdempotent | src/lib/data.ts:226-229 | removing the same id a second time changes nothing |
| Tables.RemoveAppend | src/lib/data.ts:226-229 | removal by id distributes over concatenation |
| Tables.Max | src/lib/data.ts:197 | `Math.max` of a non-empty id list is one of the ids and at least every id |
| Tables.NextId | src/lib/data.ts:197 | a new id is at least 1, greater than every existing id, and so not already in use |
| Tables.ParseIdText | src/lib/data.ts:197 | `parseInt` of an id's text gives back a finite id, and `NaN` for the text of `-Infinity` or `NaN` |
| Tables.JsMax | src/lib/data.ts:197 | `Math.max`: `NaN` exactly when an argument is `NaN`, `-Infinity` exactly when every argument is (so for none), and otherwise the largest finite argument |
| Tables.JsAddOne | src/lib/data.ts:197 | `+ 1` adds one to a finite number and leaves `-Infinity` and `NaN` as they are |
| Tables.NextIdAsWritten | src/lib/data.ts:197 | the source's generator gives `-Infinity` for an empty table, `NaN` once an id is not finite, and otherwise a number above every id |
| Tables.NextIdAgreesWhenNonEmpty | src/lib/data.ts:215 | on a non-empty table the source's `max + 1` arithmetic and `NextId` give the same id |
| Tables.EmptyTableGivesDuplicateIds | src/lib/data.ts:197 | after the student table (or, at line 215, the class table) is emptied, the source hands out `-Infinity`, then `NaN` twice |
| Tables.EmptyTableGivesDistinctIds | src/lib/data.ts:197 | the corrected generator gives 1, 2, 3 to three additions to an empty table |
| Data.Percentage | src/lib/data.ts:283 | the rounded rate is between 0 and 100, within half a point of the exact rate (halves round up), 0 for no records or none present, and 100 when all are present |
| Data.QrCodeFor | src/lib/data.ts:198 | the QR payload is the student id followed by exactly `-QR` |
| Data.DayOf | src/lib/data.ts:271-277 | the calendar day of a timestamp: the timestamp lies within that day's 86 400 000 milliseconds |
| Data.SameDay | src/lib/data.ts:271-277 | two timestamps on the same calendar day lie less than one day apart |
| Data.Summary | src/lib/data.ts:279-291 | the total is the number of records, present counts the present records, present plus absent is the total, and the percentage is the rate rounded half up: between 0 and 100, 0 for no records or none present, 100 when all are present |
| Data.RecordFor | src/lib/data.ts:231-252 | fails with "Student or class not found" exactly when the student or the class is missing; otherwise makes a record with a fresh id, the current student and class names, the flag given, the date `now`, and a time-in exactly when present |
| Data.Store.constructor | src/lib/data.ts:188-190 | the three tables start as copies of the seed lists |
| Data.Store.AddStudent | src/lib/data.ts:196-202 | appends exactly one student, with a fresh id greater than every existing id and QR payload `studentId + "-QR"`; earlier entries and the other tables are unchanged |
| Data.Store.UpdateStudent | src/lib/data.ts:204-207 | the student table becomes `ReplaceByKey` of the argument, and the argument is returned; the other tables are unchanged |
| Data.Store.DeleteStudent | src/lib/data.ts:209-212 | the student table becomes `RemoveByKey` of the id, and the id is returned; attendance records are untouched |
| Data.Store.AddClass | src/lib/data.ts:214-219 | appends exactly one class with a fresh id; the other tables are unchanged |
| Data.Store.UpdateClass | src/lib/data.ts:221-224 | the class table becomes `ReplaceByKey` of the argument; the other tables are unchanged |
| Data.Store.DeleteClass | src/lib/data.ts:226-229 | the class table becomes `RemoveByKey` of the id; students and attendance records are untouched |
| Data.Store.RecordAttendance | src/lib/data.ts:231-253 | returns `RecordFor`'s result; an error leaves all three tables unchanged, and success appends exactly that record |
| Data.Store.GetStudentById | src/lib/data.ts:255-257 | absent exactly when no student has the id; otherwise the student at the first position holding that id |
| Data.Store.GetClassById | src/lib/data.ts:259-261 | absent exactly when no class has the id; otherwise the class at the first position holding that id |
| Data.Store.GetAttendanceByStudentId | src/lib/data.ts:263-265 | the order-preserving subsequence of records of that student, each record as many times as it is stored |
| Data.Store.GetAttendanceByClassId | src/lib/data.ts:267-269 | the order-preserving subsequence of records of that class, each record as many times as it is stored |
| Data.Store.GetAttendanceByDate | src/lib/data.ts:271-277 | the order-preserving subsequence of records on the same calendar day, each record as many times as it is stored |
| Data.DeletedStudentCannotBeRecorded | src/lib/data.ts:231-237 | once a student id is deleted, recording attendance for it fails |
| Data.DemoSummaries | src/lib/data.ts:164-185 | the seeded summaries add up, and their percentages are 84, 87 and 90 |
| Data.SeedQrCodes | src/lib/data.ts:39-85 | every seed student's QR payload is its student id followed by `-QR` |
| AttendanceHistoryPage.FilteredRecords | src/pages/AttendanceHistory.tsx:61-86 | an order-preserving subsequence of the records, keeping a record, as often as it occurs, exactly when it meets every criterion that is set |
| AttendanceHistoryPage.Matches | src/pages/AttendanceHistory.tsx:61-86 | a record passes exactly when it is on the selected day, in the selected class and of the selected student, for each of these that is set, and has the selected status |
| AttendanceHistoryPage.NoCriteriaKeepsAll | src/pages/AttendanceHistory.tsx:61-86 | with no date, class or student and status "all", every record is kept |
| AttendanceHistoryPage.DateCriterion | src/pages/AttendanceHistory.tsx:63-65 | the date criterion keeps a record exactly when it is on the selected calendar day |
| AttendanceHistoryPage.PresentViewOfAll | src/pages/AttendanceHistory.tsx:78-83 | the "present" view is the present records of the "all" view, in order |
| AttendanceHistoryPage.AbsentViewOfAll | src/pages/AttendanceHistory.tsx:78-83 | the "absent" view is the absent records of the "all" view, in order |
| AttendanceHistoryPage.StatusPartition | src/pages/AttendanceHistory.tsx:78-86 | the "present" and "absent" views are disjoint and together make up the "all" view, as multisets and by length |
| AttendanceHistoryPage.DigitsAreClean | src/pages/AttendanceHistory.tsx:111 | the student-id column never holds a comma or a line break |
| AttendanceHistoryPage.CsvFields | src/pages/AttendanceHistory.tsx:110-117 | one field per header column; the student-id column is the id's digits; the status column is "Present" exactly for a present record; no time-in gives "-" |
| AttendanceHistoryPage.CsvLines | src/pages/AttendanceHistory.tsx:120-123 | the header line, then record `i`'s fields joined by commas on line `i + 1` |
| AttendanceHistoryPage.CsvString | src/pages/AttendanceHistory.tsx:120-123 | the report starts with the header line, and is only that line when no record is shown |
| AttendanceHistoryPage.RowReadsBack | src/pages/AttendanceHistory.tsx:122 | a row whose fields hold no comma or line break reads back as its fields and stays on one line |
| AttendanceHistoryPage.HeaderReadsBack | src/pages/AttendanceHistory.tsx:101-121 | the header line reads back as the six column names and holds no line break |
| AttendanceHistoryPage.CsvRowReadsBack | src/pages/AttendanceHistory.tsx:110-117 | the line of record `i` reads back as that record's six fields and holds no line break |
| AttendanceHistoryPage.CsvLinesAreLines | src/pages/AttendanceHistory.tsx:101-123 | a clean report has one line per record plus the header, and no line holds a line break |
| AttendanceHistoryPage.CsvReadsBack | src/pages/AttendanceHistory.tsx:101-123 | with clean fields, the report reads back as the six-column header and then exactly one line per shown record, in order, each holding that record's six fields |
| AttendanceHistoryPage.NoSeparatorInJoin | src/pages/AttendanceHistory.tsx:120-123 | a join holds a character only if a piece or the separator is that character |
| AttendanceHistoryPage.CommaInNameShiftsColumns | src/pages/AttendanceHistory.tsx:110-122 | since nothing is quoted, a student name holding a comma makes its row read back as more than six columns |
| AttendanceHistoryPage.RateBand | src/pages/AttendanceHistory.tsx:327-333 | green exactly at 90 or more, blue from 75 to 89, yellow from 60 to 74, and red below 60, so each rate gets exactly one colour |
| AttendanceHistoryPage.RateBandMonotone | src/pages/AttendanceHistory.tsx:327-333 | a higher rate never shows a worse colour |
| AttendanceHistoryPage.AttendanceHistory.constructor | src/pages/AttendanceHistory.tsx:55-58 | the page opens on today, with every class and student and status "all" |
| AttendanceHistoryPage.AttendanceHistory.HandleReset | src/pages/AttendanceHistory.tsx:91-96 | the date becomes today, class and student are cleared, and the status becomes "all" |
| AttendanceHistoryPage.AttendanceHistory.ExportCsv | src/pages/AttendanceHistory.tsx:98-123 | the report of the records the current filters show (read back by `CsvReadsBack`) |
| AttendanceHistoryPage.AttendanceHistory.ShownBand | src/pages/AttendanceHistory.tsx:89 | the bar is green when every shown record is present, and red when none is |
| QrScannerPage.ExtractStudentId | src/pages/QRScanner.tsx:70 | the extracted id is the text before the first "-", or the whole payload when it has none |
| QrScannerPage.EmptyIdIff | src/pages/QRScanner.tsx:72-75 | the extracted id is empty exactly when the payload is empty or starts with "-" |
| QrScannerPage.QrRoundTrip | src/pages/QRScanner.tsx:70 | a payload `studentId + "-QR"` reads back as `studentId` when that id holds no "-" |
| QrScannerPage.QrRoundTripFailsWithDash | src/pages/QRScanner.tsx:70 | a student id holding "-" does not survive the round trip |
| QrScannerPage.SeedCodesScanBack | src/pages/QRScanner.tsx:69-70 | every seed student's printed code scans back to its own student id |
| QrScannerPage.CheckScan | src/pages/QRScanner.tsx:68-88 | checks the format first, then looks the student up in the roster, then checks that a class is selected; admits a scan exactly when all three pass, with the first roster student of that id and the selected class |
| QrScannerPage.CheckScanAdmitsFirst | src/pages/QRScanner.tsx:78 | of several roster entries with the scanned student id, the first one is admitted |
| QrScannerPage.QrScanner.constructor | src/pages/QRScanner.tsx:47-66 | a class id given in the address preselects that class when the store knows it |
| QrScannerPage.QrScanner.HandleScan | src/pages/QRScanner.tsx:68-115 | a rejected scan changes nothing; an admitted scan records the student present in the class with the student's internal id; only a successful record puts the scan at the front of the recent list and sets a tab-switch timer |
| QrScannerPage.QrScanner.HandleClassChange | src/pages/QRScanner.tsx:117-120 | the selection becomes the store's class with that id, and nothing when there is none |
| QrScannerPage.QrScanner.TabSwitchElapsed | src/pages/QRScanner.tsx:108-110 | a pending timer fires and sets the recent-scans tab |
| QrScannerPage.DeletedStudentScanFails | src/pages/QRScanner.tsx:78-92 | a scan admitted by the seed lookup fails to record once the store no longer has the student |
| ScannerComponent.ErrorText | src/components/Scanner.tsx:72 | the error's message when it has a non-empty one, and otherwise the default text |
| ScannerComponent.Accepts | src/components/Scanner.tsx:48 | a result is taken exactly when it is a non-empty string and scanning is on |
| ScannerComponent.Step | src/components/Scanner.tsx:47-82 | `onScan` is called exactly when a non-empty result arrives while scanning, with that result, and scanning then stops; nothing but a timer or a reset turns scanning back on |
| ScannerComponent.Run | src/components/Scanner.tsx:47-82 | a run of events calls `onScan` at most once per event, and never with an empty string |
| ScannerComponent.QuietUntilRearmed | src/components/Scanner.tsx:47-65 | once scanning is off, no `onScan` happens and scanning stays off until a cooldown timer fires or the user resets |
| ScannerComponent.AtMostOneScanPerCooldown | src/components/Scanner.tsx:47-65 | without a timer or a reset, `onScan` is called at most once, however many codes are decoded |
| ScannerComponent.EmittedWereDecoded | src/components/Scanner.tsx:47-57 | every string passed to `onScan` is a non-empty result that the decoder reported |
| ScannerComponent.ErrorKeepsScanning | src/components/Scanner.tsx:69-77 | an error records a failed result with its text, calls nothing, and leaves scanning as it was |
| ScannerComponent.Scanner.constructor | src/components/Scanner.tsx:18-25 | the component starts scanning, with no last result |
| ScannerComponent.Scanner.HandleScan | src/components/Scanner.tsx:47-67 | an accepted result stops scanning, becomes the successful last result, starts a cooldown, and is returned as the `onScan` call; any other input changes nothing and calls nothing |
| ScannerComponent.Scanner.HandleError | src/components/Scanner.tsx:69-77 | the last result becomes a failure carrying the message or the default text; scanning is unchanged |
| ScannerComponent.Scanner.ResetScanner | src/components/Scanner.tsx:79-82 | scanning is on and the last result is cleared |
| ScannerComponent.Scanner.CooldownElapsed | src/components/Scanner.tsx:63-65 | a pending cooldown timer fires and turns scanning back on |
| ScannerComponent.Scanner.Unmount | src/components/Scanner.tsx:41-44 | the cleanup turns scanning off |
| StudentsPage.StudentFormErrors | src/pages/Students.tsx:58-63 | the form passes exactly when the name and student id are at least 2 UTF-16 units long, the e-mail passes the e-mail check, and the class is non-empty; each message appears exactly when its own field fails |
| StudentsPage.AstralNameIsLongEnough | src/pages/Students.tsx:59 | a one-character name outside the Basic Multilingual Plane, such as an emoji, meets the two-character minimum |
| StudentsPage.FilteredStudents | src/pages/Students.tsx:84-90 | keeps a student, in order and as often as it occurs, exactly when the lower-cased term occurs in the lower-cased name, student id, e-mail or class |
| StudentsPage.EmptySearchKeepsAll | src/pages/Students.tsx:84-90 | an empty search shows the whole list |
| StudentsPage.SearchIgnoresCase | src/pages/Students.tsx:84-90 | a term and its lower-cased form show the same students |
| StudentsPage.EditedStudent | src/pages/Students.tsx:132-135 | the edited student takes the four form fields and keeps its id, QR payload and avatar |
| StudentsPage.StaleQrCode | src/pages/Students.tsx:132-135 | after the student id is edited, the kept QR payload still scans back to the old id, not the new one |
| StudentsPage.Students.constructor | src/pages/Students.tsx:67-82 | the page starts from the seed list, with closed dialogs and an empty form |
| StudentsPage.Students.SetSearchTerm | src/pages/Students.tsx:161 | the shown list becomes the search result for the new term |
| StudentsPage.Students.HandleAddStudent | src/pages/Students.tsx:92-101 | opens an empty form in add mode |
| StudentsPage.Students.HandleEditStudent | src/pages/Students.tsx:103-112 | opens the form filled from the student, in edit mode |
| StudentsPage.Students.HandleDeleteStudent | src/pages/Students.tsx:114-117 | remembers the id and opens the confirmation |
| StudentsPage.Students.ConfirmDeleteStudent | src/pages/Students.tsx:119-127 | with no pending id nothing changes; otherwise exactly that id leaves the page's list and the store, the pending id is cleared and the dialog closes; attendance records stay |
| StudentsPage.Students.OnSubmit | src/pages/Students.tsx:129-147 | edit replaces only the entry with the student's id, in both lists, by the merged student; add appends the store-made student to both lists; both close the dialog |
| StudentsPage.Students.Submit | src/pages/Students.tsx:221 | returns the schema's errors; a failing form changes neither list, the store nor any page field; a passing form edits or adds in both lists exactly as `OnSubmit` does and closes the dialog |
| ClassesPage.ClassFormErrors | src/pages/Classes.tsx:49-54 | the form passes exactly when the name, description and schedule are at least 2 UTF-16 units long and the head count is at least 0; each message appears exactly when its own field fails |
| ClassesPage.FilteredClasses | src/pages/Classes.tsx:77-82 | keeps a class, in order and as often as it occurs, exactly when the lower-cased term occurs in the lower-cased name, description or schedule |
| ClassesPage.EmptySearchKeepsAll | src/pages/Classes.tsx:77-82 | an empty search shows the whole list |
| ClassesPage.SearchIgnoresCase | src/pages/Classes.tsx:77-82 | a term and its lower-cased form show the same classes |
| ClassesPage.EditedClass | src/pages/Classes.tsx:128-131 | the edited class takes the four form fields and keeps its id |
| ClassesPage.NewClassOf | src/pages/Classes.tsx:138-143 | the class to add is made of exactly the four form fields |
| ClassesPage.Classes.constructor | src/pages/Classes.tsx:60-75 | the page starts from the seed list, with closed dialogs and an empty form |
| ClassesPage.Classes.SetSearchTerm | src/pages/Classes.tsx:164 | the shown list becomes the search result for the new term |
| ClassesPage.Classes.HandleAddClass | src/pages/Classes.tsx:84-93 | opens an empty form in add mode |
| ClassesPage.Classes.HandleEditClass | src/pages/Classes.tsx:95-104 | opens the form filled from the class, in edit mode |
| ClassesPage.Classes.HandleDeleteClass | src/pages/Classes.tsx:106-109 | remembers the id and opens the confirmation |
| ClassesPage.Classes.ConfirmDeleteClass | src/pages/Classes.tsx:111-119 | with no pending id nothing changes; otherwise exactly that id leaves the page's list and the store, and the pending state is cleared; students and attendance records stay |
| ClassesPage.Classes.OnSubmit | src/pages/Classes.tsx:125-150 | edit replaces only the entry with the class's id, in both lists, by the merged class; add appends the store-made class to both lists; both close the dialog |
| ClassesPage.Classes.Submit | src/pages/Classes.tsx:225 | returns the schema's errors; a failing form changes neither list, the store nor any page field; a passing form edits or adds in both lists exactly as `OnSubmit` does and closes the dialog |
| PerformanceRecorderComponent.SelectedClass | src/components/PerformanceRecorder.tsx:66 | with no class id there is no class; with one, there is a class exactly when the store has that id, and it is the first class with that id |
| PerformanceRecorderComponent.FilteredStudents | src/components/PerformanceRecorder.tsx:78-83 | keeps a roster student, in order, exactly when the term occurs in the name or student id ignoring case, and, when a class id is given, the student's class is that class's name |
| PerformanceRecorderComponent.UnknownClassShowsNobody | src/components/PerformanceRecorder.tsx:81 | a class id the store does not know leaves nobody to pick |
| PerformanceRecorderComponent.NoFilterKeepsAll | src/components/PerformanceRecorder.tsx:78-83 | with no class id and an empty search, the whole roster shows |
| PerformanceRecorderComponent.PerformanceRecorder.constructor | src/components/PerformanceRecorder.tsx:56-75 | no selection, an empty search, the default form (activity "quiz") and no saved records |
| PerformanceRecorderComponent.PerformanceRecorder.SetSearchTerm | src/components/PerformanceRecorder.tsx:138 | sets the search term and nothing else |
| PerformanceRecorderComponent.PerformanceRecorder.HandleSelectStudent | src/components/PerformanceRecorder.tsx:85-88 | the selection and the form's student id both become the chosen student's |
| PerformanceRecorderComponent.PerformanceRecorder.HandleSubmit | src/components/PerformanceRecorder.tsx:90-113 | with no selected student it reports failure and saves nothing; otherwise it puts one record at the front, leaves the older records as they were, resets the form and clears the selection; the list stays newest first |
| PerformanceRecorderComponent.PerformanceRecorder.ClearRecords | src/components/PerformanceRecorder.tsx:399 | the saved records become empty |
| TeachersPage.Teachers.constructor | src/pages/Teachers.tsx:40-45 | the dialog is closed and the five fields are empty |
| TeachersPage.Teachers.OpenRecording | src/pages/Teachers.tsx:76 | opens the dialog and keeps the fields |
| TeachersPage.Teachers.Fill | src/pages/Teachers.tsx:253-317 | the five fields take the values entered |
| TeachersPage.Teachers.HandleSubmitPerformance | src/pages/Teachers.tsx:47-68 | succeeds exactly when student, class and performance are all filled in, whatever the grade and notes; a failure changes nothing and keeps the dialog open; a success clears all five fields and closes it |
| DashboardPage.Recent | src/pages/Dashboard.tsx:69 | of a newest-first list, keeps the first min(5, n) records, still newest first, and no record left out is more recent than one kept |
| DashboardPage.SortNewestFirst | src/pages/Dashboard.tsx:67-68 | reorders the array in place into a permutation of its old contents that is non-increasing by date |
| DashboardPage.InsertNewest | src/pages/Dashboard.tsx:68 | one insertion pass extends the ordered prefix by one record and keeps the array's contents |
| DashboardPage.Swap | src/pages/Dashboard.tsx:68 | exchanges two records and keeps the array's contents |
| DashboardPage.RecentAttendance | src/pages/Dashboard.tsx:67-69 | sorts the array in place, newest first, and returns its first min(5, n) records |
| DashboardPage.AttendanceDistribution | src/pages/Dashboard.tsx:48-51 | two slices, "Present" then "Absent" |
| DashboardPage.DistributionCoversTotal | src/pages/Dashboard.tsx:48-51 | the slices are the day's present and absent counts and add up to the day's total |
| DashboardPage.TodayDistribution | src/pages/Dashboard.tsx:48-51 | on the seeded figures the pie shows 38 present and 7 absent out of 45 |

## Left out

- Rendering, layout, animations, icons, toasts, console logging and router navigation are left out: they have no behaviour to state.
- Camera permission (`hasPermission`) and the QR decoder library are left out. The decoder is only a source of result strings and error messages.
- QR image generation, download and sharing, and the CSV file download, are left out as browser APIs. Only the CSV string is modelled.
- `Text.Lower` maps ASCII letters only, not the full Unicode case mapping that `toLowerCase` applies.
- Date formatting by `date-fns` is taken as the function parameters `formatDate` and `formatTime`.
- The e-mail check of the schema library is taken as the predicate `isEmail`.
- The calendar day is computed in UTC. The source uses the browser's local time zone.
- `Data.RecordFor` stamps `date` and `timeIn` with the same `now`. The source reads the clock twice, and the two readings can differ by a few milliseconds.
- The two-second scan cooldown and the one-second tab switch are events, not time: `Scanner.CooldownElapsed` and `QrScanner.TabSwitchElapsed`.
- Data.Percentage: rounds exactly, half up, instead of computing `Math.round(present / total * 100)` in floating point. Float artefacts at exact halves are not modelled.
- ClassesPage.ClassFormErrors: takes the head count as an integer after coercion. Non-numeric and fractional inputs to `z.coerce.number()` are not modelled.
- DashboardPage.SortNewestFirst: does not state stability. The sort it models is stable, so records on the same date keep their seed order, but the contract does not say so.
- The dashboard's sort reorders the seed array that the attendance-history page also reads. The model sorts an array it is given and does not model that sharing.
- Id arithmetic on non-numeric ids is left out: the ids are `nat` in the model.
- The store uses the corrected id generator, `Tables.NextId`. The source's arithmetic is modelled separately, as `Tables.NextIdAsWritten`, for the finding below.

## Findings

| source | as written | input that shows it | evidently intended | confidence | as-written member | corrected member |
|---|---|---|---|---|---|---|
| src/lib/data.ts:197 | `Math.max(...ids.map(parseInt)) + 1` as the new id; with no ids, `Math.max()` is `-Infinity`, and `parseInt("-Infinity")` and `parseInt("NaN")` are `NaN` | delete every student, then add three: their ids are "-Infinity", "NaN" and "NaN", so two students share an id (the same holds for classes at line 215) | an empty table starts again at 1, and every new id is unused | high, not executed | Tables.EmptyTableGivesDuplicateIds | Tables.NextId |

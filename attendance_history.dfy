/** src/pages/AttendanceHistory.tsx: the four-way record filter, the reset
    of the filter state, the CSV report and the colour of the rate bar. */
module AttendanceHistoryPage {
  import opened Seqs
  import opened Text
  import opened Data

  datatype StatusFilter = All | PresentOnly | AbsentOnly

  /** The page's filter state; `None` is an unset date, class or student. */
  datatype Criteria = Criteria(
    date: Option<Timestamp>, classId: Option<nat>, studentId: Option<nat>,
    status: StatusFilter)

  /** One record passes when it meets every criterion that is set. */
  predicate Matches(a: AttendanceRecord, c: Criteria)
  {
    && (c.date.Some? ==> SameDay(a.date, c.date.value))
    && (c.classId.Some? ==> a.classId == c.classId.value)
    && (c.studentId.Some? ==> a.studentId == c.studentId.value)
    && match c.status
       case All => true
       case PresentOnly => a.present
       case AbsentOnly => !a.present
  }

  function MatchesTest(c: Criteria): AttendanceRecord -> bool
  {
    a => Matches(a, c)
  }

  /** `filteredRecords`. */
  function FilteredRecords(records: seq<AttendanceRecord>, c: Criteria): (r: seq<AttendanceRecord>)
    ensures SubsequenceOf(r, records)
    ensures forall a :: a in r <==> a in records && Matches(a, c)
    ensures forall a :: multiset(r)[a] == if Matches(a, c) then multiset(records)[a] else 0
  {
    Filter(MatchesTest(c), records)
  }

  /** With nothing selected and status "all", every record is shown, in order. */
  lemma NoCriteriaKeepsAll(records: seq<AttendanceRecord>)
    ensures FilteredRecords(records, Criteria(None, None, None, All)) == records
  {
    FilterKeepsAll(MatchesTest(Criteria(None, None, None, All)), records);
  }

  /** The date criterion alone keeps exactly the records of that calendar day. */
  lemma DateCriterion(records: seq<AttendanceRecord>, day: Timestamp, a: AttendanceRecord)
    requires a in records
    ensures a in FilteredRecords(records, Criteria(Some(day), None, None, All))
            <==> SameDay(a.date, day)
  {
  }

  function IsAbsent(a: AttendanceRecord): bool { !a.present }

  /** With date, class and student fixed, the "present" view is the present
      records of the "all" view, in its order. */
  lemma PresentViewOfAll(
    records: seq<AttendanceRecord>, date: Option<Timestamp>, classId: Option<nat>,
    studentId: Option<nat>)
    ensures FilteredRecords(records, Criteria(date, classId, studentId, PresentOnly))
         == Filter(IsPresent, FilteredRecords(records, Criteria(date, classId, studentId, All)))
  {
    FilterFilter(MatchesTest(Criteria(date, classId, studentId, All)), IsPresent,
                 MatchesTest(Criteria(date, classId, studentId, PresentOnly)), records);
  }

  /** The same for the "absent" view. */
  lemma AbsentViewOfAll(
    records: seq<AttendanceRecord>, date: Option<Timestamp>, classId: Option<nat>,
    studentId: Option<nat>)
    ensures FilteredRecords(records, Criteria(date, classId, studentId, AbsentOnly))
         == Filter(IsAbsent, FilteredRecords(records, Criteria(date, classId, studentId, All)))
  {
    FilterFilter(MatchesTest(Criteria(date, classId, studentId, All)), IsAbsent,
                 MatchesTest(Criteria(date, classId, studentId, AbsentOnly)), records);
  }

  /** So the "present" and "absent" views are disjoint and together make up
      the "all" view. */
  lemma StatusPartition(
    records: seq<AttendanceRecord>, date: Option<Timestamp>, classId: Option<nat>,
    studentId: Option<nat>)
    ensures var all := FilteredRecords(records, Criteria(date, classId, studentId, All));
            var present := FilteredRecords(records, Criteria(date, classId, studentId, PresentOnly));
            var absent := FilteredRecords(records, Criteria(date, classId, studentId, AbsentOnly));
            && multiset(present) + multiset(absent) == multiset(all)
            && |present| + |absent| == |all|
            && forall a :: !(a in present && a in absent)
  {
    var all := FilteredRecords(records, Criteria(date, classId, studentId, All));
    PresentViewOfAll(records, date, classId, studentId);
    AbsentViewOfAll(records, date, classId, studentId);
    FilterSplit(IsPresent, IsAbsent, all);
  }

  const CsvHeader: seq<string> := ["Student Name", "Student ID", "Class", "Date", "Status", "Time In"]

  /** The six fields of one record in the report; `formatDate` and
      `formatTime` stand for `format(d, "MM/dd/yyyy")` and
      `format(d, "HH:mm:ss")`. */
  function CsvFields(a: AttendanceRecord, formatDate: Timestamp -> string,
                     formatTime: Timestamp -> string): (fields: seq<string>)
    ensures |fields| == |CsvHeader|
    ensures fields[1] == NatToString(a.studentId)
    ensures fields[4] == "Present" <==> a.present
    ensures a.timeIn.None? ==> fields[5] == "-"
  {
    [ a.studentName, NatToString(a.studentId), a.className, formatDate(a.date),
      if a.present then "Present" else "Absent",
      if a.timeIn.Some? then formatTime(a.timeIn.value) else "-" ]
  }

  /** The lines of the report: the header, then one row per record. */
  function CsvLines(records: seq<AttendanceRecord>, formatDate: Timestamp -> string,
                    formatTime: Timestamp -> string): (lines: seq<string>)
    ensures |lines| == |records| + 1 && lines[0] == Join(CsvHeader, ',')
    ensures forall i :: 0 <= i < |records| ==>
              lines[i + 1] == Join(CsvFields(records[i], formatDate, formatTime), ',')
  {
    var rows := seq(|records|, i requires 0 <= i < |records| =>
                      Join(CsvFields(records[i], formatDate, formatTime), ','));
    assert forall i :: 0 <= i < |records| ==> ([Join(CsvHeader, ',')] + rows)[i + 1] == rows[i];
    [Join(CsvHeader, ',')] + rows
  }

  /** `csvString` in `handleExport`: the lines joined by newlines, with no
      quoting of any field. */
  function CsvString(records: seq<AttendanceRecord>, formatDate: Timestamp -> string,
                     formatTime: Timestamp -> string): (csv: string)
    ensures Join(CsvHeader, ',') <= csv
    ensures records == [] ==> csv == Join(CsvHeader, ',')
  {
    Join(CsvLines(records, formatDate, formatTime), '\n')
  }

  /** No field holds a comma or a line break. */
  predicate CleanFields(fields: seq<string>)
  {
    forall k :: 0 <= k < |fields| ==> ',' !in fields[k] && '\n' !in fields[k]
  }

  lemma DigitsAreClean(n: nat)
    ensures ',' !in NatToString(n) && '\n' !in NatToString(n)
  {
    var s := NatToString(n);
    assert forall k :: 0 <= k < |s| ==> s[k] != ',' && s[k] != '\n';
  }

  /** A clean row reads back as its fields and stays on one line. */
  lemma RowReadsBack(fields: seq<string>)
    requires |fields| >= 1 && CleanFields(fields)
    ensures Split(Join(fields, ','), ',') == fields
    ensures '\n' !in Join(fields, ',')
  {
    SplitJoin(fields, ',');
    NoSeparatorInJoin(fields, ',', '\n');
  }

  /** When no field holds a comma or a line break, the report reads back as
      the header followed by exactly one line per record, in order, and each
      record's line reads back as its six fields. */
  lemma CsvReadsBack(records: seq<AttendanceRecord>, formatDate: Timestamp -> string,
                     formatTime: Timestamp -> string)
    requires forall a :: a in records ==> CleanFields(CsvFields(a, formatDate, formatTime))
    ensures var lines := Split(CsvString(records, formatDate, formatTime), '\n');
            && |lines| == |records| + 1
            && Split(lines[0], ',') == CsvHeader
            && forall i :: 0 <= i < |records| ==>
                 Split(lines[i + 1], ',') == CsvFields(records[i], formatDate, formatTime)
  {
    var lines := CsvLines(records, formatDate, formatTime);
    CsvLinesAreLines(records, formatDate, formatTime);
    SplitJoin(lines, '\n');
    HeaderReadsBack();
    forall i | 0 <= i < |records|
      ensures Split(lines[i + 1], ',') == CsvFields(records[i], formatDate, formatTime)
    {
      CsvRowReadsBack(records, formatDate, formatTime, i);
    }
  }

  /** Every line of a clean report is free of line breaks. */
  lemma CsvLinesAreLines(records: seq<AttendanceRecord>, formatDate: Timestamp -> string,
                         formatTime: Timestamp -> string)
    requires forall a :: a in records ==> CleanFields(CsvFields(a, formatDate, formatTime))
    ensures var lines := CsvLines(records, formatDate, formatTime);
            |lines| == |records| + 1 && forall k :: 0 <= k < |lines| ==> '\n' !in lines[k]
  {
    var lines := CsvLines(records, formatDate, formatTime);
    forall k | 0 <= k < |lines| ensures '\n' !in lines[k] {
      if k == 0 {
        HeaderReadsBack();
      } else {
        assert records[k - 1] in records;
        RowReadsBack(CsvFields(records[k - 1], formatDate, formatTime));
      }
    }
  }

  /** The header line reads back as the six column names. */
  lemma HeaderReadsBack()
    ensures Split(Join(CsvHeader, ','), ',') == CsvHeader
    ensures '\n' !in Join(CsvHeader, ',')
  {
    RowReadsBack(CsvHeader);
  }

  /** The line of record `i` reads back as its six fields and holds no
      line break. */
  lemma CsvRowReadsBack(records: seq<AttendanceRecord>, formatDate: Timestamp -> string,
                        formatTime: Timestamp -> string, i: nat)
    requires i < |records| && CleanFields(CsvFields(records[i], formatDate, formatTime))
    ensures Split(CsvLines(records, formatDate, formatTime)[i + 1], ',') ==
            CsvFields(records[i], formatDate, formatTime)
    ensures '\n' !in CsvLines(records, formatDate, formatTime)[i + 1]
  {
    RowReadsBack(CsvFields(records[i], formatDate, formatTime));
  }

  /** A join contains a character only if a piece or the separator is it. */
  lemma {:induction false} NoSeparatorInJoin(parts: seq<string>, sep: char, c: char)
    requires c != sep
    requires forall k :: 0 <= k < |parts| ==> c !in parts[k]
    ensures c !in Join(parts, sep)
  {
    if |parts| > 1 {
      NoSeparatorInJoin(parts[1..], sep, c);
    }
  }

  /** Without the quoting of section 2 of RFC 4180, a student name holding a
      comma makes its row read back as more than six columns. */
  lemma CommaInNameShiftsColumns(a: AttendanceRecord, formatDate: Timestamp -> string,
                                 formatTime: Timestamp -> string)
    requires ',' in a.studentName
    requires forall k :: 1 <= k < 6 ==> ',' !in CsvFields(a, formatDate, formatTime)[k]
    ensures |Split(Join(CsvFields(a, formatDate, formatTime), ','), ',')| > 6
  {
    var fields := CsvFields(a, formatDate, formatTime);
    SplitJoin(fields[1..], ',');
    SplitAround(fields[0], Join(fields[1..], ','), ',');
    SplitAtSeparator(fields[0], ',');
  }

  /** The colour of the attendance-rate bar. */
  datatype Band = Green | Blue | Yellow | Red

  function RateBand(percentage: int): (b: Band)
    ensures b == Green <==> percentage >= 90
    ensures b == Blue <==> 75 <= percentage < 90
    ensures b == Yellow <==> 60 <= percentage < 75
    ensures b == Red <==> percentage < 60
  {
    if percentage >= 90 then Green
    else if percentage >= 75 then Blue
    else if percentage >= 60 then Yellow
    else Red
  }

  function BandRank(b: Band): nat
  {
    match b
    case Red => 0
    case Yellow => 1
    case Blue => 2
    case Green => 3
  }

  /** A higher rate never shows a worse colour. */
  lemma RateBandMonotone(p: int, q: int)
    requires p <= q
    ensures BandRank(RateBand(p)) <= BandRank(RateBand(q))
  {
  }

  /** The page's filter state. */
  class AttendanceHistory {
    var selectedDate: Option<Timestamp>
    var selectedClass: Option<nat>
    var selectedStudent: Option<nat>
    var attendanceFilter: StatusFilter

    /** The page opens on today's records of every class and student. */
    constructor (now: Timestamp)
      ensures selectedDate == Some(now) && selectedClass == None
      ensures selectedStudent == None && attendanceFilter == All
    {
      selectedDate := Some(now);
      selectedClass := None;
      selectedStudent := None;
      attendanceFilter := All;
    }

    function CurrentCriteria(): Criteria
      reads this
    {
      Criteria(selectedDate, selectedClass, selectedStudent, attendanceFilter)
    }

    /** `handleReset`: back to today, every class and student, status "all". */
    method HandleReset(now: Timestamp)
      modifies this
      ensures selectedDate == Some(now) && selectedClass == None
      ensures selectedStudent == None && attendanceFilter == All
    {
      selectedDate := Some(now);
      selectedClass := None;
      selectedStudent := None;
      attendanceFilter := All;
    }

    /** The report `handleExport` builds from the records currently shown. */
    function ExportCsv(records: seq<AttendanceRecord>, formatDate: Timestamp -> string,
                       formatTime: Timestamp -> string): string
      reads this
    {
      CsvString(FilteredRecords(records, CurrentCriteria()), formatDate, formatTime)
    }

    /** The summary card and the colour of its bar for the records shown. */
    function ShownBand(records: seq<AttendanceRecord>): (b: Band)
      reads this
      ensures var s := Summary(FilteredRecords(records, CurrentCriteria()));
              s.total > 0 && s.present == s.total ==> b == Green
      ensures var s := Summary(FilteredRecords(records, CurrentCriteria()));
              s.present == 0 ==> b == Red
    {
      RateBand(Summary(FilteredRecords(records, CurrentCriteria())).percentage)
    }
  }
}

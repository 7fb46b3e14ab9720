/** src/pages/QRScanner.tsx: reading a student id out of a scanned QR
    payload, the checks made before attendance is recorded, and the list of
    recent scans. */
module QrScannerPage {
  import opened Seqs
  import opened Text
  import opened Data

  /** `data.split("-")[0]`: the text before the first "-", or all of it. */
  function ExtractStudentId(data: string): (id: string)
    ensures id <= data && '-' !in id
    ensures id == data || data[|id|] == '-'
  {
    Split(data, '-')[0]
  }

  /** The extracted id is empty exactly when the payload is empty or starts
      with "-". */
  lemma EmptyIdIff(data: string)
    ensures ExtractStudentId(data) == "" <==> data == "" || data[0] == '-'
  {
    var id := ExtractStudentId(data);
    assert data != [] && id != "" ==> id[0] == data[0];
  }

  /** A payload made by `QrCodeFor` gives back the student id it was made
      from, provided that id has no "-" of its own. */
  lemma QrRoundTrip(studentId: string)
    requires '-' !in studentId
    ensures ExtractStudentId(QrCodeFor(studentId)) == studentId
  {
    var data := QrCodeFor(studentId);
    var id := ExtractStudentId(data);
    assert data[|studentId|] == '-';
    assert forall j :: 0 <= j < |studentId| ==> data[j] == studentId[j];
    assert id != data;
    assert id == data[..|studentId|];
  }

  /** A student id holding "-" does not survive the round trip: the scan
      reads back only its part before the first "-". */
  lemma QrRoundTripFailsWithDash(studentId: string)
    requires '-' in studentId
    ensures ExtractStudentId(QrCodeFor(studentId)) != studentId
  {
  }

  /** Every seed student's printed QR code scans back to its student id. */
  lemma SeedCodesScanBack()
    ensures forall s :: s in SampleStudents ==> ExtractStudentId(s.qrCode) == s.studentId
  {
    forall s | s in SampleStudents
      ensures ExtractStudentId(s.qrCode) == s.studentId
    {
      SeedQrCodes();
      assert '-' !in s.studentId;
      QrRoundTrip(s.studentId);
    }
  }

  /** What one scan ends in; each failure is a different message to the user. */
  datatype ScanOutcome =
    | InvalidFormat
    | StudentNotFound
    | NoClassSelected
    | RecordFailed
    | Recorded(student: Student)

  /** The result of the checks made before recording. */
  datatype Admission = Rejected(outcome: ScanOutcome) | Admitted(student: Student, classItem: Class)

  predicate Known(roster: seq<Student>, studentId: string)
  {
    exists s :: s in roster && s.studentId == studentId
  }

  /** The early returns of `handleScan`, in the source's order: the payload
      format, then the student lookup by external student id in `roster`,
      then the selected class. */
  function CheckScan(data: string, roster: seq<Student>, selectedClass: Option<Class>): (r: Admission)
    ensures ExtractStudentId(data) == "" ==> r == Rejected(InvalidFormat)
    ensures ExtractStudentId(data) != "" && !Known(roster, ExtractStudentId(data))
            ==> r == Rejected(StudentNotFound)
    ensures ExtractStudentId(data) != "" && Known(roster, ExtractStudentId(data)) && selectedClass.None?
            ==> r == Rejected(NoClassSelected)
    ensures r.Admitted? <==>
            ExtractStudentId(data) != "" && Known(roster, ExtractStudentId(data)) && selectedClass.Some?
    ensures r.Admitted? ==>
            && r.student in roster && r.student.studentId == ExtractStudentId(data)
            && r.classItem == selectedClass.value
    ensures r.Admitted? ==>
            exists i :: 0 <= i < |roster| && roster[i] == r.student &&
                        forall j :: 0 <= j < i ==> roster[j].studentId != ExtractStudentId(data)
  {
    var studentId := ExtractStudentId(data);
    if studentId == "" then Rejected(InvalidFormat)
    else
      var student := Find((s: Student) => s.studentId == studentId, roster);
      if student.None? then Rejected(StudentNotFound)
      else if selectedClass.None? then Rejected(NoClassSelected)
      else
        var i :| 0 <= i < |roster| && roster[i] == student.value &&
                 NoneBefore((s: Student) => s.studentId == studentId, roster, i);
        Admitted(student.value, selectedClass.value)
  }

  /** Of several roster entries sharing the scanned student id, the first
      one is admitted. */
  lemma CheckScanAdmitsFirst(data: string, roster: seq<Student>, classItem: Class, i: nat)
    requires ExtractStudentId(data) != ""
    requires i < |roster| && roster[i].studentId == ExtractStudentId(data)
    requires forall j :: 0 <= j < i ==> roster[j].studentId != ExtractStudentId(data)
    ensures CheckScan(data, roster, Some(classItem)) == Admitted(roster[i], classItem)
  {
    var studentId := ExtractStudentId(data);
    var p := (s: Student) => s.studentId == studentId;
    assert NoneBefore(p, roster, i);
    FindIsFirst(p, roster, i);
  }

  datatype RecentScan = RecentScan(student: Student, time: Timestamp, success: bool)

  datatype Tab = ScanTab | RecentTab

  /** The page's state. `pendingTabSwitches` counts the one-second timers
      set after recorded entrances that have not fired yet. `activeTab` is
      only ever written: the page's tabs do not read it. */
  class QrScanner {
    var selectedClass: Option<Class>
    var recentScans: seq<RecentScan>
    var activeTab: Tab
    var pendingTabSwitches: nat

    /** The class given in the address (`?classId=`) is preselected when the
        store knows it. */
    constructor (classIdParam: Option<nat>, store: Store)
      ensures selectedClass == if classIdParam.Some? then store.GetClassById(classIdParam.value) else None
      ensures recentScans == [] && activeTab == ScanTab && pendingTabSwitches == 0
    {
      selectedClass := if classIdParam.Some? then store.GetClassById(classIdParam.value) else None;
      recentScans := [];
      activeTab := ScanTab;
      pendingTabSwitches := 0;
    }

    /** `handleScan`: after the checks pass, attendance is recorded as
        present with the student's internal id and the class id; only when
        that succeeds is the scan put at the front of `recentScans`. */
    method HandleScan(data: string, roster: seq<Student>, store: Store, now: Timestamp)
      returns (outcome: ScanOutcome)
      modifies this, store
      ensures selectedClass == old(selectedClass) && activeTab == old(activeTab)
      ensures store.students == old(store.students) && store.classes == old(store.classes)
      ensures var check := CheckScan(data, roster, old(selectedClass));
              check.Rejected? ==>
                && outcome == check.outcome
                && store.attendanceRecords == old(store.attendanceRecords)
                && recentScans == old(recentScans)
                && pendingTabSwitches == old(pendingTabSwitches)
      ensures var check := CheckScan(data, roster, old(selectedClass));
              check.Admitted? ==>
                var r := RecordFor(old(store.students), old(store.classes), old(store.attendanceRecords),
                                   check.student.id, check.classItem.id, true, now);
                if r.Err? then
                  && outcome == RecordFailed
                  && store.attendanceRecords == old(store.attendanceRecords)
                  && recentScans == old(recentScans)
                  && pendingTabSwitches == old(pendingTabSwitches)
                else
                  && outcome == Recorded(check.student)
                  && store.attendanceRecords == old(store.attendanceRecords) + [r.value]
                  && recentScans == [RecentScan(check.student, now, true)] + old(recentScans)
                  && pendingTabSwitches == old(pendingTabSwitches) + 1
    {
      var check := CheckScan(data, roster, selectedClass);
      if check.Rejected? {
        outcome := check.outcome;
        return;
      }
      var r := store.RecordAttendance(check.student.id, check.classItem.id, true, now);
      if r.Err? {
        outcome := RecordFailed;
        return;
      }
      recentScans := [RecentScan(check.student, now, true)] + recentScans;
      pendingTabSwitches := pendingTabSwitches + 1;
      outcome := Recorded(check.student);
    }

    /** `handleClassChange`: an id the store does not know clears the selection. */
    method HandleClassChange(classId: nat, store: Store)
      modifies this
      ensures selectedClass == store.GetClassById(classId)
      ensures selectedClass.None? <==> forall c :: c in store.classes ==> c.id != classId
      ensures recentScans == old(recentScans) && activeTab == old(activeTab)
      ensures pendingTabSwitches == old(pendingTabSwitches)
    {
      selectedClass := store.GetClassById(classId);
    }

    /** One of the timers set after a recorded entrance fires. */
    method TabSwitchElapsed()
      requires pendingTabSwitches > 0
      modifies this
      ensures activeTab == RecentTab && pendingTabSwitches == old(pendingTabSwitches) - 1
      ensures selectedClass == old(selectedClass) && recentScans == old(recentScans)
    {
      activeTab := RecentTab;
      pendingTabSwitches := pendingTabSwitches - 1;
    }
  }

  /** A seed student deleted from the store still passes the checks, since
      the lookup is in the seed list, but then recording fails. */
  lemma DeletedStudentScanFails(
    data: string, roster: seq<Student>, selectedClass: Option<Class>,
    students: seq<Student>, classes: seq<Class>, records: seq<AttendanceRecord>, now: Timestamp)
    requires CheckScan(data, roster, selectedClass).Admitted?
    requires forall s :: s in students ==> s.id != CheckScan(data, roster, selectedClass).student.id
    ensures var check := CheckScan(data, roster, selectedClass);
            RecordFor(students, classes, records, check.student.id, check.classItem.id, true, now).Err?
  {
  }
}

/** src/lib/data.ts: the entities of the attendance tracker, the seed data,
    and the in-memory store whose three tables the CRUD functions reassign. */
module Data {
  import opened Seqs
  import opened Tables

  /** Milliseconds since the epoch (`Date.getTime()`). */
  type Timestamp = int

  const MsPerDay: nat := 86_400_000

  /** The calendar day a timestamp falls on. */
  function DayOf(t: Timestamp): (d: int)
    ensures d * MsPerDay <= t < (d + 1) * MsPerDay
  {
    t / MsPerDay
  }

  /** Same year, month and day of the month (`getFullYear`, `getMonth`,
      `getDate` all equal, or equally `toDateString()` equal). */
  predicate SameDay(a: Timestamp, b: Timestamp)
    ensures SameDay(a, b) ==> -(MsPerDay as int) < a - b < MsPerDay
  {
    DayOf(a) == DayOf(b)
  }

  /** `class` in the source is the name of the student's class. */
  datatype Student = Student(
    id: nat, name: string, studentId: string, qrCode: string,
    email: string, className: string, avatar: Option<string>)

  /** `Omit<Student, "id" | "qrCode">`: what `addStudent` receives. */
  datatype NewStudent = NewStudent(
    name: string, studentId: string, email: string, className: string,
    avatar: Option<string>)

  datatype Class = Class(
    id: nat, name: string, description: string, schedule: string, totalStudents: int)

  /** `Omit<Class, "id">`: what `addClass` receives. */
  datatype NewClass = NewClass(
    name: string, description: string, schedule: string, totalStudents: int)

  /** Student and class names are copies taken when the record is made. */
  datatype AttendanceRecord = AttendanceRecord(
    id: nat, studentId: nat, studentName: string, className: string, classId: nat,
    date: Timestamp, present: bool, timeIn: Option<Timestamp>)

  datatype AttendanceSummary = AttendanceSummary(
    total: nat, present: nat, absent: int, percentage: int)

  /** What a call that may throw returns: its value, or the error's message. */
  datatype Result<T> = Ok(value: T) | Err(message: string)

  function StudentKey(s: Student): nat { s.id }
  function ClassKey(c: Class): nat { c.id }
  function RecordKey(a: AttendanceRecord): nat { a.id }
  function IsPresent(a: AttendanceRecord): bool { a.present }

  /** The QR payload printed for a student. */
  function QrCodeFor(studentId: string): (code: string)
    ensures |code| == |studentId| + 3
    ensures code[..|studentId|] == studentId && code[|studentId|..] == "-QR"
  {
    studentId + "-QR"
  }

  /** `Math.round(present / total * 100)`, or 0 when there are no records,
      in exact arithmetic: the whole number nearest to the rate in per cent,
      halves rounding up. */
  function Percentage(present: nat, total: nat): (pct: nat)
    requires present <= total
    ensures pct <= 100
    ensures total == 0 ==> pct == 0
    ensures total > 0 ==> -(total as int) < 2 * total * pct - 200 * present <= total
    ensures present == 0 ==> pct == 0
    ensures 0 < total && present == total ==> pct == 100
  {
    if total == 0 then 0
    else
      var pct := (200 * present + total) / (2 * total);
      PercentageBounds(present, total, pct);
      pct
  }

  /** `d * a <= d * b` for `a <= b`. */
  lemma MulMonotone(d: nat, a: nat, b: nat)
    requires a <= b
    ensures d * a <= d * b
  {
    assert d * b == d * a + d * (b - a);
  }

  lemma PercentageBounds(present: nat, total: nat, pct: nat)
    requires 0 < total && present <= total
    requires pct == (200 * present + total) / (2 * total)
    ensures pct <= 100
    ensures -(total as int) < 2 * total * pct - 200 * present <= total
    ensures present == 0 ==> pct == 0
    ensures present == total ==> pct == 100
  {
    var n, d := 200 * present + total, 2 * total;
    assert d * pct <= n < d * pct + d;
    if pct > 100 {
      MulMonotone(d, 101, pct);
    }
    if present == 0 && pct > 0 {
      MulMonotone(d, 1, pct);
    }
    if present == total && pct < 100 {
      MulMonotone(d, pct, 99);
    }
  }

  /** `getAttendanceSummary(records)`. */
  function Summary(records: seq<AttendanceRecord>): (s: AttendanceSummary)
    ensures s.total == |records|
    ensures s.present + s.absent == s.total && s.absent >= 0
    ensures s.present == |Filter(IsPresent, records)|
    ensures 0 <= s.percentage <= 100
    ensures s.total == 0 ==> s.percentage == 0
    ensures s.total > 0 ==>
              -(s.total as int) < 2 * s.total * s.percentage - 200 * s.present <= s.total
    ensures s.total > 0 && s.present == s.total ==> s.percentage == 100
    ensures s.total > 0 && s.present == 0 ==> s.percentage == 0
  {
    var total := |records|;
    var present := |Filter(IsPresent, records)|;
    AttendanceSummary(total, present, total - present, Percentage(present, total))
  }

  /** The record `recordAttendance(studentId, classId, present)` appends to
      `records`, or the error it throws when either id is unknown. `now`
      stands for `new Date()`. */
  function RecordFor(
    students: seq<Student>, classes: seq<Class>, records: seq<AttendanceRecord>,
    studentId: nat, classId: nat, present: bool, now: Timestamp): (r: Result<AttendanceRecord>)
    ensures r.Err? <==>
      (forall s :: s in students ==> s.id != studentId) ||
      (forall c :: c in classes ==> c.id != classId)
    ensures r.Err? ==> r.message == "Student or class not found"
    ensures r.Ok? ==>
      && (forall a :: a in records ==> a.id < r.value.id)
      && r.value.studentId == studentId && r.value.classId == classId
      && r.value.studentName == FindByKey(students, StudentKey, studentId).value.name
      && r.value.className == FindByKey(classes, ClassKey, classId).value.name
      && r.value.date == now && r.value.present == present
      && (r.value.timeIn.Some? <==> present)
  {
    var student := FindByKey(students, StudentKey, studentId);
    var classItem := FindByKey(classes, ClassKey, classId);
    if student.None? || classItem.None? then Err("Student or class not found")
    else
      var id := NextId(Keys(records, RecordKey));
      Ok(AttendanceRecord(
        id, studentId, student.value.name, classItem.value.name, classId,
        now, present, if present then Some(now) else None))
  }

  /** The store: three tables that every write replaces with a new list. */
  class Store {
    var students: seq<Student>
    var classes: seq<Class>
    var attendanceRecords: seq<AttendanceRecord>

    /** The tables start as copies of the seed lists. */
    constructor ()
      ensures students == SampleStudents && classes == SampleClasses
      ensures attendanceRecords == SampleAttendanceRecords
    {
      students := SampleStudents;
      classes := SampleClasses;
      attendanceRecords := SampleAttendanceRecords;
    }

    /** `addStudent`: appends the student with a fresh id and its QR payload. */
    method AddStudent(student: NewStudent) returns (s: Student)
      modifies this
      ensures s == Student(
        NextId(Keys(old(students), StudentKey)), student.name, student.studentId,
        QrCodeFor(student.studentId), student.email, student.className, student.avatar)
      ensures forall t :: t in old(students) ==> t.id < s.id
      ensures students == old(students) + [s]
      ensures classes == old(classes) && attendanceRecords == old(attendanceRecords)
    {
      var id := NextId(Keys(students, StudentKey));
      s := Student(id, student.name, student.studentId, QrCodeFor(student.studentId),
                   student.email, student.className, student.avatar);
      students := students + [s];
    }

    /** `updateStudent`: every entry with the argument's id becomes the argument. */
    method UpdateStudent(student: Student) returns (r: Student)
      modifies this
      ensures r == student
      ensures students == ReplaceByKey(old(students), StudentKey, student)
      ensures classes == old(classes) && attendanceRecords == old(attendanceRecords)
    {
      students := ReplaceByKey(students, StudentKey, student);
      r := student;
    }

    /** `deleteStudent`: drops every entry with that id; attendance records
        that name the student stay. */
    method DeleteStudent(id: nat) returns (r: nat)
      modifies this
      ensures r == id
      ensures students == RemoveByKey(old(students), StudentKey, id)
      ensures classes == old(classes) && attendanceRecords == old(attendanceRecords)
    {
      students := RemoveByKey(students, StudentKey, id);
      r := id;
    }

    /** `addClass`: appends the class with a fresh id. */
    method AddClass(classItem: NewClass) returns (c: Class)
      modifies this
      ensures c == Class(
        NextId(Keys(old(classes), ClassKey)), classItem.name, classItem.description,
        classItem.schedule, classItem.totalStudents)
      ensures forall d :: d in old(classes) ==> d.id < c.id
      ensures classes == old(classes) + [c]
      ensures students == old(students) && attendanceRecords == old(attendanceRecords)
    {
      var id := NextId(Keys(classes, ClassKey));
      c := Class(id, classItem.name, classItem.description, classItem.schedule,
                 classItem.totalStudents);
      classes := classes + [c];
    }

    /** `updateClass`: every entry with the argument's id becomes the argument. */
    method UpdateClass(classItem: Class) returns (r: Class)
      modifies this
      ensures r == classItem
      ensures classes == ReplaceByKey(old(classes), ClassKey, classItem)
      ensures students == old(students) && attendanceRecords == old(attendanceRecords)
    {
      classes := ReplaceByKey(classes, ClassKey, classItem);
      r := classItem;
    }

    /** `deleteClass`: drops every entry with that id; neither the students
        of the class nor its attendance records are touched. */
    method DeleteClass(id: nat) returns (r: nat)
      modifies this
      ensures r == id
      ensures classes == RemoveByKey(old(classes), ClassKey, id)
      ensures students == old(students) && attendanceRecords == old(attendanceRecords)
    {
      classes := RemoveByKey(classes, ClassKey, id);
      r := id;
    }

    /** `recordAttendance`: on an unknown student or class the store is left
        as it was and the error is returned; otherwise one record is
        appended and returned. */
    method RecordAttendance(studentId: nat, classId: nat, present: bool, now: Timestamp)
      returns (r: Result<AttendanceRecord>)
      modifies this
      ensures r == RecordFor(old(students), old(classes), old(attendanceRecords),
                             studentId, classId, present, now)
      ensures attendanceRecords == if r.Ok? then old(attendanceRecords) + [r.value]
                                   else old(attendanceRecords)
      ensures students == old(students) && classes == old(classes)
    {
      r := RecordFor(students, classes, attendanceRecords, studentId, classId, present, now);
      if r.Ok? {
        attendanceRecords := attendanceRecords + [r.value];
      }
    }

    /** `getStudentById`: the first student with that id. */
    function GetStudentById(id: nat): (r: Option<Student>)
      reads this
      ensures r.None? <==> forall s :: s in students ==> s.id != id
      ensures r.Some? ==> r.value in students && r.value.id == id
      ensures r.Some? ==> exists i :: 0 <= i < |students| && students[i] == r.value &&
                                      forall j :: 0 <= j < i ==> students[j].id != id
    {
      FindByKey(students, StudentKey, id)
    }

    /** `getClassById`: the first class with that id. */
    function GetClassById(id: nat): (r: Option<Class>)
      reads this
      ensures r.None? <==> forall c :: c in classes ==> c.id != id
      ensures r.Some? ==> r.value in classes && r.value.id == id
      ensures r.Some? ==> exists i :: 0 <= i < |classes| && classes[i] == r.value &&
                                      forall j :: 0 <= j < i ==> classes[j].id != id
    {
      FindByKey(classes, ClassKey, id)
    }

    /** `getAttendanceByStudentId`. */
    function GetAttendanceByStudentId(studentId: nat): (r: seq<AttendanceRecord>)
      reads this
      ensures forall a :: a in r <==> a in attendanceRecords && a.studentId == studentId
      ensures SubsequenceOf(r, attendanceRecords)
      ensures forall a :: multiset(r)[a] == if a.studentId == studentId then multiset(attendanceRecords)[a] else 0
    {
      Filter((a: AttendanceRecord) => a.studentId == studentId, attendanceRecords)
    }

    /** `getAttendanceByClassId`. */
    function GetAttendanceByClassId(classId: nat): (r: seq<AttendanceRecord>)
      reads this
      ensures forall a :: a in r <==> a in attendanceRecords && a.classId == classId
      ensures SubsequenceOf(r, attendanceRecords)
      ensures forall a :: multiset(r)[a] == if a.classId == classId then multiset(attendanceRecords)[a] else 0
    {
      Filter((a: AttendanceRecord) => a.classId == classId, attendanceRecords)
    }

    /** `getAttendanceByDate`: the records on the same calendar day. */
    function GetAttendanceByDate(date: Timestamp): (r: seq<AttendanceRecord>)
      reads this
      ensures forall a :: a in r <==> a in attendanceRecords && SameDay(a.date, date)
      ensures SubsequenceOf(r, attendanceRecords)
      ensures forall a :: multiset(r)[a] == if SameDay(a.date, date) then multiset(attendanceRecords)[a] else 0
    {
      Filter((a: AttendanceRecord) => SameDay(a.date, date), attendanceRecords)
    }
  }

  /** Once a student is deleted, attendance can no longer be recorded for
      it (the records already made for it stay: see `Store.DeleteStudent`). */
  lemma DeletedStudentCannotBeRecorded(
    students: seq<Student>, classes: seq<Class>, records: seq<AttendanceRecord>,
    id: nat, classId: nat, present: bool, now: Timestamp)
    ensures RecordFor(RemoveByKey(students, StudentKey, id), classes, records,
                      id, classId, present, now).Err?
  {
  }

  const SampleStudents: seq<Student> := [
    Student(1, "Emma Thompson", "ST001", "ST001-QR", "emma@school.edu",
            "Computer Science 101", Some("https://i.pravatar.cc/150?img=1")),
    Student(2, "Alex Johnson", "ST002", "ST002-QR", "alex@school.edu",
            "Computer Science 101", Some("https://i.pravatar.cc/150?img=2")),
    Student(3, "Michael Chen", "ST003", "ST003-QR", "michael@school.edu",
            "Physics 202", Some("https://i.pravatar.cc/150?img=3")),
    Student(4, "Sarah Williams", "ST004", "ST004-QR", "sarah@school.edu",
            "Physics 202", Some("https://i.pravatar.cc/150?img=4")),
    Student(5, "James Wilson", "ST005", "ST005-QR", "james@school.edu",
            "English Literature", Some("https://i.pravatar.cc/150?img=5"))
  ]

  const SampleClasses: seq<Class> := [
    Class(1, "Computer Science 101", "Introduction to Computer Science",
          "Mon, Wed 10:00 AM - 11:30 AM", 25),
    Class(2, "Physics 202", "Advanced Physics Concepts",
          "Tue, Thu 1:00 PM - 2:30 PM", 18),
    Class(3, "English Literature", "Classic and Modern Literature Analysis",
          "Wed, Fri 3:00 PM - 4:30 PM", 22)
  ]

  /** Dates of the seed records: 15, 16 and 17 October 2023. */
  const SampleAttendanceRecords: seq<AttendanceRecord> := [
    AttendanceRecord(1, 1, "Emma Thompson", "Computer Science 101", 1,
                     1697328000000, true, Some(1697364300000)),
    AttendanceRecord(2, 2, "Alex Johnson", "Computer Science 101", 1,
                     1697328000000, true, Some(1697363880000)),
    AttendanceRecord(3, 3, "Michael Chen", "Physics 202", 2,
                     1697414400000, false, None),
    AttendanceRecord(4, 4, "Sarah Williams", "Physics 202", 2,
                     1697414400000, true, Some(1697418120000)),
    AttendanceRecord(5, 5, "James Wilson", "English Literature", 3,
                     1697500800000, true, Some(1697511300000))
  ]

  /** The fixed demo figures shown on the dashboard. */
  const TodayAttendance: AttendanceSummary := AttendanceSummary(45, 38, 7, Percentage(38, 45))
  const WeeklyAttendance: AttendanceSummary := AttendanceSummary(225, 195, 30, Percentage(195, 225))
  const MonthlyAttendance: AttendanceSummary := AttendanceSummary(900, 810, 90, Percentage(810, 900))

  /** The demo figures are consistent and their rates come out as 84, 87
      and 90 per cent. */
  lemma DemoSummaries()
    ensures TodayAttendance.present + TodayAttendance.absent == TodayAttendance.total
    ensures WeeklyAttendance.present + WeeklyAttendance.absent == WeeklyAttendance.total
    ensures MonthlyAttendance.present + MonthlyAttendance.absent == MonthlyAttendance.total
    ensures TodayAttendance.percentage == 84
    ensures WeeklyAttendance.percentage == 87
    ensures MonthlyAttendance.percentage == 90
  {
  }

  /** Every seed student's QR payload is the one `addStudent` would give it. */
  lemma SeedQrCodes()
    ensures forall s :: s in SampleStudents ==> s.qrCode == QrCodeFor(s.studentId)
  {
  }
}

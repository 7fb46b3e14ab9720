/** src/components/PerformanceRecorder.tsx: picking a student from the seed
    roster (narrowed by a search term and, when the page names one, a
    class) and keeping the performance records saved this session, newest
    first. */
module PerformanceRecorderComponent {
  import opened Seqs
  import opened Text
  import opened Tables
  import opened Data

  /** The form's four fields; the student id is the text of the internal id. */
  datatype PerformanceForm = PerformanceForm(studentId: string, activityType: string, score: string, comments: string)

  const DefaultForm: PerformanceForm := PerformanceForm("", "quiz", "", "")

  datatype PerformanceRecord = PerformanceRecord(
    student: Student, activityType: string, score: string, comments: string, timestamp: Timestamp)

  /** `classId ? getClassById(classId) : null`. */
  function SelectedClass(classes: seq<Class>, classId: Option<nat>): (c: Option<Class>)
    ensures classId.None? ==> c.None?
    ensures classId.Some? ==> (c.None? <==> forall k :: k in classes ==> k.id != classId.value)
    ensures c.Some? ==> c.value in classes && c.value.id == classId.value
    ensures c.Some? ==> exists i :: 0 <= i < |classes| && classes[i] == c.value &&
                                    forall j :: 0 <= j < i ==> classes[j].id != classId.value
  {
    if classId.Some? then FindByKey(classes, ClassKey, classId.value) else None
  }

  /** The search rule: name or student id contains the term, ignoring case. */
  predicate MatchesSearch(s: Student, term: string)
  {
    MatchesAny([s.name, s.studentId], term)
  }

  /** `!classId || student.class === selectedClass?.name`. */
  predicate MatchesClass(s: Student, selectedClass: Option<Class>, classId: Option<nat>)
  {
    classId.None? || (selectedClass.Some? && s.className == selectedClass.value.name)
  }

  function RosterTest(classes: seq<Class>, term: string, classId: Option<nat>): Student -> bool
  {
    s => MatchesSearch(s, term) && MatchesClass(s, SelectedClass(classes, classId), classId)
  }

  /** `filteredStudents`: the roster entries matching the search and, when
      a class id is given, belonging to that class by name. */
  function FilteredStudents(roster: seq<Student>, classes: seq<Class>, term: string, classId: Option<nat>)
    : (r: seq<Student>)
    ensures forall s :: s in r <==>
              && s in roster && MatchesSearch(s, term)
              && MatchesClass(s, SelectedClass(classes, classId), classId)
    ensures SubsequenceOf(r, roster)
    ensures forall s :: multiset(r)[s] ==
              if MatchesSearch(s, term) && MatchesClass(s, SelectedClass(classes, classId), classId)
              then multiset(roster)[s] else 0
  {
    Filter(RosterTest(classes, term, classId), roster)
  }

  /** A class id the store does not know leaves nobody to pick. */
  lemma {:induction false} UnknownClassShowsNobody(
    roster: seq<Student>, classes: seq<Class>, term: string, classId: nat)
    requires forall c :: c in classes ==> c.id != classId
    ensures FilteredStudents(roster, classes, term, Some(classId)) == []
  {
    var r := FilteredStudents(roster, classes, term, Some(classId));
    assert SelectedClass(classes, Some(classId)).None?;
    assert forall s :: s !in r;
  }

  /** Without a class id and with an empty search, the whole roster shows. */
  lemma {:induction false} NoFilterKeepsAll(roster: seq<Student>, classes: seq<Class>)
    ensures FilteredStudents(roster, classes, "", None) == roster
  {
    forall s | s in roster ensures RosterTest(classes, "", None)(s) {
      EmptyTermMatches([s.name, s.studentId]);
    }
    FilterKeepsAll(RosterTest(classes, "", None), roster);
  }

  /** The saved records are ordered newest first. */
  predicate NewestFirst(records: seq<PerformanceRecord>)
  {
    forall i, j :: 0 <= i < j < |records| ==> records[i].timestamp >= records[j].timestamp
  }

  /** The component's state; `classId` is the prop it was given. */
  class PerformanceRecorder {
    var selectedStudent: Option<Student>
    var searchTerm: string
    var form: PerformanceForm
    var savedRecords: seq<PerformanceRecord>

    constructor ()
      ensures selectedStudent.None? && searchTerm == "" && form == DefaultForm && savedRecords == []
    {
      selectedStudent := None;
      searchTerm := "";
      form := DefaultForm;
      savedRecords := [];
    }

    /** The students offered for selection. */
    function Shown(classes: seq<Class>, classId: Option<nat>): seq<Student>
      reads this
    {
      FilteredStudents(SampleStudents, classes, searchTerm, classId)
    }

    method SetSearchTerm(term: string)
      modifies this
      ensures searchTerm == term
      ensures selectedStudent == old(selectedStudent) && form == old(form) && savedRecords == old(savedRecords)
    {
      searchTerm := term;
    }

    /** `handleSelectStudent`: the selection and the form's student id. */
    method HandleSelectStudent(student: Student)
      modifies this
      ensures selectedStudent == Some(student)
      ensures form == old(form).(studentId := NatToString(student.id))
      ensures searchTerm == old(searchTerm) && savedRecords == old(savedRecords)
    {
      selectedStudent := Some(student);
      form := form.(studentId := NatToString(student.id));
    }

    /** `handleSubmit`: without a selected student nothing is saved;
        otherwise the record goes to the front of the list, the form returns
        to its defaults and the selection is cleared. The score is not
        checked. */
    method HandleSubmit(values: PerformanceForm, now: Timestamp) returns (ok: bool)
      modifies this
      ensures ok <==> old(selectedStudent).Some?
      ensures !ok ==> savedRecords == old(savedRecords) && form == old(form) && selectedStudent.None?
      ensures ok ==>
                && savedRecords == [PerformanceRecord(old(selectedStudent).value, values.activityType,
                                                      values.score, values.comments, now)]
                                   + old(savedRecords)
                && form == DefaultForm && selectedStudent.None?
      ensures ok ==> |savedRecords| == |old(savedRecords)| + 1 && savedRecords[1..] == old(savedRecords)
      ensures NewestFirst(old(savedRecords)) && (forall r :: r in old(savedRecords) ==> r.timestamp <= now)
              ==> NewestFirst(savedRecords)
      ensures searchTerm == old(searchTerm)
    {
      if selectedStudent.None? {
        return false;
      }
      var record := PerformanceRecord(selectedStudent.value, values.activityType, values.score,
                                      values.comments, now);
      savedRecords := [record] + savedRecords;
      form := DefaultForm;
      selectedStudent := None;
      ok := true;
    }

    /** The "Clear Records" button. */
    method ClearRecords()
      modifies this
      ensures savedRecords == []
      ensures selectedStudent == old(selectedStudent) && searchTerm == old(searchTerm) && form == old(form)
    {
      savedRecords := [];
    }
  }
}

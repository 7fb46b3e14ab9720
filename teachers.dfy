/** src/pages/Teachers.tsx: the "Record Student Performance" dialog and its
    submit guard. */
module TeachersPage {

  /** Student, class and performance must be filled in; grade and notes
      may stay empty. */
  predicate Complete(student: string, classItem: string, performance: string)
  {
    student != "" && classItem != "" && performance != ""
  }

  /** The page's state: the dialog flag and its five fields. */
  class Teachers {
    var isRecordingOpen: bool
    var selectedStudent: string
    var selectedClass: string
    var performance: string
    var grade: string
    var notes: string

    constructor ()
      ensures !isRecordingOpen
      ensures selectedStudent == "" && selectedClass == "" && performance == "" && grade == "" && notes == ""
    {
      isRecordingOpen := false;
      selectedStudent := "";
      selectedClass := "";
      performance := "";
      grade := "";
      notes := "";
    }

    /** The "Record Student Performance" button. */
    method OpenRecording()
      modifies this
      ensures isRecordingOpen
      ensures selectedStudent == old(selectedStudent) && selectedClass == old(selectedClass)
      ensures performance == old(performance) && grade == old(grade) && notes == old(notes)
    {
      isRecordingOpen := true;
    }

    /** The user fills in the dialog. */
    method Fill(student: string, classItem: string, perf: string, g: string, n: string)
      modifies this
      ensures selectedStudent == student && selectedClass == classItem && performance == perf
      ensures grade == g && notes == n && isRecordingOpen == old(isRecordingOpen)
    {
      selectedStudent, selectedClass, performance, grade, notes := student, classItem, perf, g, n;
    }

    /** `handleSubmitPerformance`: a missing required field changes nothing
        and keeps the dialog open; otherwise all five fields are cleared and
        the dialog closes. */
    method HandleSubmitPerformance() returns (ok: bool)
      modifies this
      ensures ok <==> old(Complete(selectedStudent, selectedClass, performance))
      ensures !ok ==>
                && selectedStudent == old(selectedStudent) && selectedClass == old(selectedClass)
                && performance == old(performance) && grade == old(grade) && notes == old(notes)
                && isRecordingOpen == old(isRecordingOpen)
      ensures ok ==>
                && selectedStudent == "" && selectedClass == "" && performance == ""
                && grade == "" && notes == "" && !isRecordingOpen
    {
      if selectedStudent == "" || selectedClass == "" || performance == "" {
        return false;
      }
      selectedStudent := "";
      selectedClass := "";
      performance := "";
      grade := "";
      notes := "";
      isRecordingOpen := false;
      ok := true;
    }
  }
}

/** src/pages/Students.tsx: the student form's rules, the search box, and
    the add, edit and delete transitions on the page's own copy of the
    student list. The page starts from the seed list and keeps it beside
    the store's table, writing every change to both. */
module StudentsPage {
  import opened Seqs
  import opened Text
  import opened Tables
  import opened Data
  import QrScannerPage

  /** The four form fields; `className` is the form's `class`. */
  datatype StudentForm = StudentForm(name: string, studentId: string, email: string, className: string)

  const EmptyForm: StudentForm := StudentForm("", "", "", "")

  /** The form filled from an existing student, as `handleEditStudent` does. */
  function FormOf(s: Student): StudentForm
  {
    StudentForm(s.name, s.studentId, s.email, s.className)
  }

  /** `studentSchema`: the messages of every failing field, in field order.
      The e-mail check is a library's and is taken as the predicate
      `isEmail`. */
  function StudentFormErrors(f: StudentForm, isEmail: string -> bool): (errors: seq<string>)
    ensures errors == [] <==>
              && Utf16Length(f.name) >= 2 && Utf16Length(f.studentId) >= 2
              && isEmail(f.email) && Utf16Length(f.className) >= 1
    ensures "Name must be at least 2 characters" in errors <==> Utf16Length(f.name) < 2
    ensures "Student ID is required" in errors <==> Utf16Length(f.studentId) < 2
    ensures "Invalid email address" in errors <==> !isEmail(f.email)
    ensures "Class is required" in errors <==> Utf16Length(f.className) < 1
    ensures |errors| <= 4
  {
    var name, id, email, cls := "Name must be at least 2 characters", "Student ID is required",
                                 "Invalid email address", "Class is required";
    // The four messages differ in their first letter.
    assert name[0] == 'N' && id[0] == 'S' && email[0] == 'I' && cls[0] == 'C';
    (if Utf16Length(f.name) < 2 then [name] else [])
    + (if Utf16Length(f.studentId) < 2 then [id] else [])
    + (if !isEmail(f.email) then [email] else [])
    + (if Utf16Length(f.className) < 1 then [cls] else [])
  }

  /** A name of one character outside the Basic Multilingual Plane, such as
      an emoji, is two UTF-16 units long and so meets the two-character
      minimum. */
  lemma AstralNameIsLongEnough(f: StudentForm, isEmail: string -> bool)
    requires |f.name| == 1 && f.name[0] as int > 0xFFFF
    ensures "Name must be at least 2 characters" !in StudentFormErrors(f, isEmail)
  {
    assert f.name[1..] == [];
  }

  /** The fields the search box looks in. */
  function SearchFields(s: Student): seq<string>
  {
    [s.name, s.studentId, s.email, s.className]
  }

  function MatchesSearch(term: string): Student -> bool
  {
    s => MatchesAny(SearchFields(s), term)
  }

  /** `filteredStudents`: the students one of whose four fields contains the
      search term, ignoring case, in list order. */
  function FilteredStudents(students: seq<Student>, term: string): (r: seq<Student>)
    ensures forall s :: s in r <==> s in students && MatchesAny(SearchFields(s), term)
    ensures SubsequenceOf(r, students)
    ensures forall s :: multiset(r)[s] == if MatchesAny(SearchFields(s), term) then multiset(students)[s] else 0
  {
    Filter(MatchesSearch(term), students)
  }

  /** An empty search box shows the whole list. */
  lemma {:induction false} EmptySearchKeepsAll(students: seq<Student>)
    ensures FilteredStudents(students, "") == students
  {
    forall s | s in students ensures MatchesSearch("")(s) {
      EmptyTermMatches(SearchFields(s));
    }
    FilterKeepsAll(MatchesSearch(""), students);
  }

  /** Typing the term in upper or lower case shows the same students. */
  lemma {:induction false} SearchIgnoresCase(students: seq<Student>, term: string)
    ensures FilteredStudents(students, Lower(term)) == FilteredStudents(students, term)
  {
    forall s | s in students ensures MatchesSearch(Lower(term))(s) == MatchesSearch(term)(s) {
      MatchesAnyIgnoresCase(SearchFields(s), term);
    }
    FilterExt(MatchesSearch(Lower(term)), MatchesSearch(term), students);
  }

  /** `{ ...studentToEdit, ...data }`: the form's four fields over the
      original; id, QR payload and avatar are kept. */
  function EditedStudent(original: Student, f: StudentForm): (s: Student)
    ensures s.id == original.id && s.qrCode == original.qrCode && s.avatar == original.avatar
    ensures FormOf(s) == f
  {
    original.(name := f.name, studentId := f.studentId, email := f.email, className := f.className)
  }

  /** Editing a student's id leaves its QR payload behind: the printed code
      still scans back to the old id, not the new one. */
  lemma StaleQrCode(original: Student, f: StudentForm)
    requires original.qrCode == QrCodeFor(original.studentId) && '-' !in original.studentId
    requires f.studentId != original.studentId
    ensures QrScannerPage.ExtractStudentId(EditedStudent(original, f).qrCode) == original.studentId
    ensures QrScannerPage.ExtractStudentId(EditedStudent(original, f).qrCode) != EditedStudent(original, f).studentId
  {
    QrScannerPage.QrRoundTrip(original.studentId);
  }

  /** The page's state. */
  class Students {
    var students: seq<Student>
    var searchTerm: string
    var openDialog: bool
    var deleteDialogOpen: bool
    var studentToEdit: Option<Student>
    var studentToDelete: Option<nat>
    var form: StudentForm

    /** The list shown under the search box. */
    function Shown(): seq<Student>
      reads this
    {
      FilteredStudents(students, searchTerm)
    }

    constructor ()
      ensures students == SampleStudents && searchTerm == ""
      ensures !openDialog && !deleteDialogOpen
      ensures studentToEdit.None? && studentToDelete.None? && form == EmptyForm
    {
      students := SampleStudents;
      searchTerm := "";
      openDialog := false;
      deleteDialogOpen := false;
      studentToEdit := None;
      studentToDelete := None;
      form := EmptyForm;
    }

    method SetSearchTerm(term: string)
      modifies this
      ensures searchTerm == term && Shown() == FilteredStudents(students, term)
      ensures students == old(students) && openDialog == old(openDialog)
      ensures deleteDialogOpen == old(deleteDialogOpen) && form == old(form)
      ensures studentToEdit == old(studentToEdit) && studentToDelete == old(studentToDelete)
    {
      searchTerm := term;
    }

    /** `handleAddStudent`: an empty form in add mode. */
    method HandleAddStudent()
      modifies this
      ensures studentToEdit.None? && form == EmptyForm && openDialog
      ensures students == old(students) && searchTerm == old(searchTerm)
      ensures deleteDialogOpen == old(deleteDialogOpen) && studentToDelete == old(studentToDelete)
    {
      studentToEdit := None;
      form := EmptyForm;
      openDialog := true;
    }

    /** `handleEditStudent`: the form filled from the student, in edit mode. */
    method HandleEditStudent(s: Student)
      modifies this
      ensures studentToEdit == Some(s) && form == FormOf(s) && openDialog
      ensures students == old(students) && searchTerm == old(searchTerm)
      ensures deleteDialogOpen == old(deleteDialogOpen) && studentToDelete == old(studentToDelete)
    {
      studentToEdit := Some(s);
      form := FormOf(s);
      openDialog := true;
    }

    /** `handleDeleteStudent`: asks for confirmation. */
    method HandleDeleteStudent(id: nat)
      modifies this
      ensures studentToDelete == Some(id) && deleteDialogOpen
      ensures students == old(students) && searchTerm == old(searchTerm) && openDialog == old(openDialog)
      ensures studentToEdit == old(studentToEdit) && form == old(form)
    {
      studentToDelete := Some(id);
      deleteDialogOpen := true;
    }

    /** `confirmDeleteStudent`: with no pending id nothing happens; otherwise
        that id leaves both lists, and no attendance record goes with it. */
    method ConfirmDeleteStudent(store: Store)
      modifies this, store
      ensures old(studentToDelete).None? ==>
                && students == old(students) && deleteDialogOpen == old(deleteDialogOpen)
                && studentToDelete.None? && store.students == old(store.students)
      ensures old(studentToDelete).Some? ==>
                && students == RemoveByKey(old(students), StudentKey, old(studentToDelete).value)
                && store.students == RemoveByKey(old(store.students), StudentKey, old(studentToDelete).value)
                && !deleteDialogOpen && studentToDelete.None?
      ensures old(students) == old(store.students) ==> students == store.students
      ensures store.classes == old(store.classes) && store.attendanceRecords == old(store.attendanceRecords)
      ensures searchTerm == old(searchTerm) && openDialog == old(openDialog)
      ensures studentToEdit == old(studentToEdit) && form == old(form)
    {
      if studentToDelete.Some? {
        var deleted := store.DeleteStudent(studentToDelete.value);
        students := RemoveByKey(students, StudentKey, deleted);
        deleteDialogOpen := false;
        studentToDelete := None;
      }
    }

    /** `onSubmit`, called with a form that passed `studentSchema`. Edit
        mode writes the merged student to the store and replaces the entry
        with its id in the page's list; add mode lets the store make the
        student and appends it. Both close the dialog. */
    method OnSubmit(data: StudentForm, store: Store)
      modifies this, store
      ensures old(studentToEdit).Some? ==>
                var updated := EditedStudent(old(studentToEdit).value, data);
                && store.students == ReplaceByKey(old(store.students), StudentKey, updated)
                && students == ReplaceByKey(old(students), StudentKey, updated)
      ensures old(studentToEdit).None? ==>
                var added := Student(NextId(Keys(old(store.students), StudentKey)), data.name,
                                     data.studentId, QrCodeFor(data.studentId), data.email,
                                     data.className, None);
                && store.students == old(store.students) + [added]
                && students == old(students) + [added]
      ensures !openDialog
      ensures old(students) == old(store.students) ==> students == store.students
      ensures store.classes == old(store.classes) && store.attendanceRecords == old(store.attendanceRecords)
      ensures searchTerm == old(searchTerm) && deleteDialogOpen == old(deleteDialogOpen)
      ensures studentToEdit == old(studentToEdit) && studentToDelete == old(studentToDelete)
      ensures form == old(form)
    {
      if studentToEdit.Some? {
        var updated := store.UpdateStudent(EditedStudent(studentToEdit.value, data));
        students := ReplaceByKey(students, StudentKey, updated);
      } else {
        var added := store.AddStudent(NewStudent(data.name, data.studentId, data.email, data.className, None));
        students := students + [added];
      }
      openDialog := false;
    }

    /** The form's submit button: the schema is checked first, and a form
        that fails it changes nothing; a passing form is submitted as
        `OnSubmit` does. */
    method Submit(data: StudentForm, isEmail: string -> bool, store: Store) returns (errors: seq<string>)
      modifies this, store
      ensures errors == StudentFormErrors(data, isEmail)
      ensures errors != [] ==>
                && students == old(students) && openDialog == old(openDialog)
                && store.students == old(store.students)
      ensures errors == [] && old(studentToEdit).Some? ==>
                var updated := EditedStudent(old(studentToEdit).value, data);
                && store.students == ReplaceByKey(old(store.students), StudentKey, updated)
                && students == ReplaceByKey(old(students), StudentKey, updated)
      ensures errors == [] && old(studentToEdit).None? ==>
                var added := Student(NextId(Keys(old(store.students), StudentKey)), data.name,
                                     data.studentId, QrCodeFor(data.studentId), data.email,
                                     data.className, None);
                && store.students == old(store.students) + [added]
                && students == old(students) + [added]
      ensures errors == [] ==> !openDialog
      ensures old(students) == old(store.students) ==> students == store.students
      ensures store.classes == old(store.classes) && store.attendanceRecords == old(store.attendanceRecords)
      ensures searchTerm == old(searchTerm) && deleteDialogOpen == old(deleteDialogOpen)
      ensures studentToEdit == old(studentToEdit) && studentToDelete == old(studentToDelete)
      ensures form == old(form)
    {
      errors := StudentFormErrors(data, isEmail);
      if errors == [] {
        OnSubmit(data, store);
      }
    }
  }
}

/** src/pages/Classes.tsx: the class form's rules, the search box, and the
    add, edit and delete transitions on the page's own copy of the class
    list, which every change writes to the store as well. */
module ClassesPage {
  import opened Seqs
  import opened Text
  import opened Tables
  import opened Data

  /** The four form fields; `totalStudents` is the number the form coerces
      its input to. */
  datatype ClassForm = ClassForm(name: string, description: string, schedule: string, totalStudents: int)

  const EmptyForm: ClassForm := ClassForm("", "", "", 0)

  /** The form filled from an existing class, as `handleEditClass` does. */
  function FormOf(c: Class): ClassForm
  {
    ClassForm(c.name, c.description, c.schedule, c.totalStudents)
  }

  /** `classSchema`: the messages of every failing field, in field order. */
  function ClassFormErrors(f: ClassForm): (errors: seq<string>)
    ensures errors == [] <==>
              && Utf16Length(f.name) >= 2 && Utf16Length(f.description) >= 2
              && Utf16Length(f.schedule) >= 2 && f.totalStudents >= 0
    ensures "Name must be at least 2 characters" in errors <==> Utf16Length(f.name) < 2
    ensures "Description is required" in errors <==> Utf16Length(f.description) < 2
    ensures "Schedule is required" in errors <==> Utf16Length(f.schedule) < 2
    ensures "Total students must be a positive number" in errors <==> f.totalStudents < 0
    ensures |errors| <= 4
  {
    var name, description, schedule, total := "Name must be at least 2 characters", "Description is required",
                                              "Schedule is required", "Total students must be a positive number";
    // The four messages differ in their first letter.
    assert name[0] == 'N' && description[0] == 'D' && schedule[0] == 'S' && total[0] == 'T';
    (if Utf16Length(f.name) < 2 then [name] else [])
    + (if Utf16Length(f.description) < 2 then [description] else [])
    + (if Utf16Length(f.schedule) < 2 then [schedule] else [])
    + (if f.totalStudents < 0 then [total] else [])
  }

  /** The fields the search box looks in. */
  function SearchFields(c: Class): seq<string>
  {
    [c.name, c.description, c.schedule]
  }

  function MatchesSearch(term: string): Class -> bool
  {
    c => MatchesAny(SearchFields(c), term)
  }

  /** `filteredClasses`: the classes whose name, description or schedule
      contains the search term, ignoring case, in list order. */
  function FilteredClasses(classes: seq<Class>, term: string): (r: seq<Class>)
    ensures forall c :: c in r <==> c in classes && MatchesAny(SearchFields(c), term)
    ensures SubsequenceOf(r, classes)
    ensures forall c :: multiset(r)[c] == if MatchesAny(SearchFields(c), term) then multiset(classes)[c] else 0
  {
    Filter(MatchesSearch(term), classes)
  }

  /** An empty search box shows the whole list. */
  lemma {:induction false} EmptySearchKeepsAll(classes: seq<Class>)
    ensures FilteredClasses(classes, "") == classes
  {
    forall c | c in classes ensures MatchesSearch("")(c) {
      EmptyTermMatches(SearchFields(c));
    }
    FilterKeepsAll(MatchesSearch(""), classes);
  }

  /** Typing the term in upper or lower case shows the same classes. */
  lemma {:induction false} SearchIgnoresCase(classes: seq<Class>, term: string)
    ensures FilteredClasses(classes, Lower(term)) == FilteredClasses(classes, term)
  {
    forall c | c in classes ensures MatchesSearch(Lower(term))(c) == MatchesSearch(term)(c) {
      MatchesAnyIgnoresCase(SearchFields(c), term);
    }
    FilterExt(MatchesSearch(Lower(term)), MatchesSearch(term), classes);
  }

  /** `{ ...classToEdit, ...data }`: the form's fields over the original,
      whose id is kept. */
  function EditedClass(original: Class, f: ClassForm): (c: Class)
    ensures c.id == original.id
    ensures FormOf(c) == f
  {
    original.(name := f.name, description := f.description, schedule := f.schedule,
              totalStudents := f.totalStudents)
  }

  /** The class the add branch asks the store for: exactly the four fields. */
  function NewClassOf(f: ClassForm): (c: NewClass)
    ensures c.name == f.name && c.description == f.description
    ensures c.schedule == f.schedule && c.totalStudents == f.totalStudents
  {
    NewClass(f.name, f.description, f.schedule, f.totalStudents)
  }

  /** The page's state. */
  class Classes {
    var classes: seq<Class>
    var searchTerm: string
    var openDialog: bool
    var deleteDialogOpen: bool
    var classToEdit: Option<Class>
    var classToDelete: Option<nat>
    var form: ClassForm

    /** The list shown under the search box. */
    function Shown(): seq<Class>
      reads this
    {
      FilteredClasses(classes, searchTerm)
    }

    constructor ()
      ensures classes == SampleClasses && searchTerm == ""
      ensures !openDialog && !deleteDialogOpen
      ensures classToEdit.None? && classToDelete.None? && form == EmptyForm
    {
      classes := SampleClasses;
      searchTerm := "";
      openDialog := false;
      deleteDialogOpen := false;
      classToEdit := None;
      classToDelete := None;
      form := EmptyForm;
    }

    method SetSearchTerm(term: string)
      modifies this
      ensures searchTerm == term && Shown() == FilteredClasses(classes, term)
      ensures classes == old(classes) && openDialog == old(openDialog)
      ensures deleteDialogOpen == old(deleteDialogOpen) && form == old(form)
      ensures classToEdit == old(classToEdit) && classToDelete == old(classToDelete)
    {
      searchTerm := term;
    }

    /** `handleAddClass`: an empty form in add mode. */
    method HandleAddClass()
      modifies this
      ensures classToEdit.None? && form == EmptyForm && openDialog
      ensures classes == old(classes) && searchTerm == old(searchTerm)
      ensures deleteDialogOpen == old(deleteDialogOpen) && classToDelete == old(classToDelete)
    {
      classToEdit := None;
      form := EmptyForm;
      openDialog := true;
    }

    /** `handleEditClass`: the form filled from the class, in edit mode. */
    method HandleEditClass(c: Class)
      modifies this
      ensures classToEdit == Some(c) && form == FormOf(c) && openDialog
      ensures classes == old(classes) && searchTerm == old(searchTerm)
      ensures deleteDialogOpen == old(deleteDialogOpen) && classToDelete == old(classToDelete)
    {
      classToEdit := Some(c);
      form := FormOf(c);
      openDialog := true;
    }

    /** `handleDeleteClass`: asks for confirmation. */
    method HandleDeleteClass(id: nat)
      modifies this
      ensures classToDelete == Some(id) && deleteDialogOpen
      ensures classes == old(classes) && searchTerm == old(searchTerm) && openDialog == old(openDialog)
      ensures classToEdit == old(classToEdit) && form == old(form)
    {
      classToDelete := Some(id);
      deleteDialogOpen := true;
    }

    /** `confirmDeleteClass`: with no pending id nothing happens; otherwise
        that id leaves both lists, and neither its students nor its
        attendance records go with it. */
    method ConfirmDeleteClass(store: Store)
      modifies this, store
      ensures old(classToDelete).None? ==>
                && classes == old(classes) && deleteDialogOpen == old(deleteDialogOpen)
                && classToDelete.None? && store.classes == old(store.classes)
      ensures old(classToDelete).Some? ==>
                && classes == RemoveByKey(old(classes), ClassKey, old(classToDelete).value)
                && store.classes == RemoveByKey(old(store.classes), ClassKey, old(classToDelete).value)
                && !deleteDialogOpen && classToDelete.None?
      ensures old(classes) == old(store.classes) ==> classes == store.classes
      ensures store.students == old(store.students) && store.attendanceRecords == old(store.attendanceRecords)
      ensures searchTerm == old(searchTerm) && openDialog == old(openDialog)
      ensures classToEdit == old(classToEdit) && form == old(form)
    {
      if classToDelete.Some? {
        var deleted := store.DeleteClass(classToDelete.value);
        classes := RemoveByKey(classes, ClassKey, deleted);
        deleteDialogOpen := false;
        classToDelete := None;
      }
    }

    /** `onSubmit`, called with a form that passed `classSchema`. Edit mode
        writes the merged class to the store and replaces the entry with its
        id in the page's list; add mode lets the store make the class and
        appends it. Both close the dialog. */
    method OnSubmit(data: ClassForm, store: Store)
      modifies this, store
      ensures old(classToEdit).Some? ==>
                var updated := EditedClass(old(classToEdit).value, data);
                && store.classes == ReplaceByKey(old(store.classes), ClassKey, updated)
                && classes == ReplaceByKey(old(classes), ClassKey, updated)
      ensures old(classToEdit).None? ==>
                var added := Class(NextId(Keys(old(store.classes), ClassKey)), data.name,
                                   data.description, data.schedule, data.totalStudents);
                && store.classes == old(store.classes) + [added]
                && classes == old(classes) + [added]
      ensures !openDialog
      ensures old(classes) == old(store.classes) ==> classes == store.classes
      ensures store.students == old(store.students) && store.attendanceRecords == old(store.attendanceRecords)
      ensures searchTerm == old(searchTerm) && deleteDialogOpen == old(deleteDialogOpen)
      ensures classToEdit == old(classToEdit) && classToDelete == old(classToDelete)
      ensures form == old(form)
    {
      if classToEdit.Some? {
        var updated := store.UpdateClass(EditedClass(classToEdit.value, data));
        classes := ReplaceByKey(classes, ClassKey, updated);
      } else {
        var added := store.AddClass(NewClassOf(data));
        classes := classes + [added];
      }
      openDialog := false;
    }

    /** The form's submit button: the schema is checked first, and a form
        that fails it changes nothing; a passing form is submitted as
        `OnSubmit` does. */
    method Submit(data: ClassForm, store: Store) returns (errors: seq<string>)
      modifies this, store
      ensures errors == ClassFormErrors(data)
      ensures errors != [] ==>
                && classes == old(classes) && openDialog == old(openDialog)
                && store.classes == old(store.classes)
      ensures errors == [] && old(classToEdit).Some? ==>
                var updated := EditedClass(old(classToEdit).value, data);
                && store.classes == ReplaceByKey(old(store.classes), ClassKey, updated)
                && classes == ReplaceByKey(old(classes), ClassKey, updated)
      ensures errors == [] && old(classToEdit).None? ==>
                var added := Class(NextId(Keys(old(store.classes), ClassKey)), data.name,
                                   data.description, data.schedule, data.totalStudents);
                && store.classes == old(store.classes) + [added]
                && classes == old(classes) + [added]
      ensures errors == [] ==> !openDialog
      ensures old(classes) == old(store.classes) ==> classes == store.classes
      ensures store.students == old(store.students) && store.attendanceRecords == old(store.attendanceRecords)
      ensures searchTerm == old(searchTerm) && deleteDialogOpen == old(deleteDialogOpen)
      ensures classToEdit == old(classToEdit) && classToDelete == old(classToDelete)
      ensures form == old(form)
    {
      errors := ClassFormErrors(data);
      if errors == [] {
        OnSubmit(data, store);
      }
    }
  }
}

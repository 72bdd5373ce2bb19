/**
 * The add-course wizard of the courses page: step 1 chooses the institution (possibly adding
 * one), step 2 names the course; the payload follows from the choice.
 */
module Courses {
  import opened Wrappers
  import opened JsStrings

  datatype Institution = Institution(id: int, name: string, handle: Option<string>, country: Option<string>, region: Option<string>)

  datatype Course = Course(courseId: int, courseName: string, courseCode: Option<string>, institutionId: Option<int>)

  datatype InstitutionChoice = Personal | Existing | New

  /** The body posted to /api/institutions: the name trimmed, blank country and region left out. */
  datatype InstitutionPayload = InstitutionPayload(name: string, country: Option<string>, region: Option<string>)

  /** The body posted to /api/courses. */
  datatype CoursePayload = CoursePayload(courseName: string, courseCode: Option<string>, institutionId: Option<int>, courseType: string)

  /** `s.trim() || undefined`. */
  function TrimmedOrAbsent(s: string): (r: Option<string>)
    ensures r.None? <==> IsBlank(s)
    ensures r.Some? ==> r.value == Trim(s) && r.value != ""
  {
    var t := Trim(s);
    if t == "" then None else Some(t)
  }

  /** The three inputs of the add-institution form. */
  datatype InstitutionDraft = InstitutionDraft(name: string, country: string, region: string)

  const EMPTY_DRAFT := InstitutionDraft("", "", "")

  function InstitutionRequest(draft: InstitutionDraft): (p: InstitutionPayload)
    ensures p.name == Trim(draft.name)
    ensures p.country == TrimmedOrAbsent(draft.country) && p.region == TrimmedOrAbsent(draft.region)
  {
    InstitutionPayload(Trim(draft.name), TrimmedOrAbsent(draft.country), TrimmedOrAbsent(draft.region))
  }

  /** The institution of the new course: the selection, when the choice is an existing or a new one. */
  function CourseInstitution(choice: InstitutionChoice, selected: Option<int>): (r: Option<int>)
    ensures r.Some? <==> (choice.Existing? || choice.New?) && selected.Some?
    ensures r.Some? ==> r == selected
  {
    if choice == Existing && selected.Some? then selected
    else if choice == New && selected.Some? then selected
    else None
  }

  /** The course payload; None when the name is blank, which stops the request. */
  function CourseRequest(name: string, code: string, choice: InstitutionChoice, selected: Option<int>): (r: Option<CoursePayload>)
    ensures r.None? <==> IsBlank(name)
    ensures r.Some? ==> r.value.courseName == Trim(name) && r.value.courseName != ""
    ensures r.Some? ==> r.value.courseCode == TrimmedOrAbsent(code)
    ensures r.Some? ==> r.value.institutionId == CourseInstitution(choice, selected)
    ensures r.Some? ==> (r.value.courseType == "personal" <==> r.value.institutionId.None?)
    ensures r.Some? ==> (r.value.courseType == "personal" || r.value.courseType == "academic")
  {
    var trimmed := Trim(name);
    if trimmed == "" then None
    else
      var institutionId := CourseInstitution(choice, selected);
      Some(CoursePayload(trimmed, TrimmedOrAbsent(code), institutionId,
        if institutionId.None? then "personal" else "academic"))
  }

  /** A personal course is personal whatever was selected before the choice changed. */
  lemma PersonalChoiceIsPersonal(name: string, code: string, selected: Option<int>)
    requires !IsBlank(name)
    ensures CourseRequest(name, code, Personal, selected).value.courseType == "personal"
  {
  }

  /** The answer of a POST: the status and the parsed body's record and `error`, or a thrown request or body. */
  datatype Answer<T> = Answered(ok: bool, record: Option<T>, error: Option<string>) | Threw

  /** The reload of the course list: the parsed `courses`, or a failure that leaves the list. */
  datatype Reload = Reloaded(courses: Option<seq<Course>>) | ReloadThrew

  /**
   * The inputs and messages of the add-course dialog that openAddCourse resets: the step, the
   * institution choice and selection, the add-institution form, the course name and code, and
   * the two error messages.
   */
  datatype Dialog = Dialog(
    step: nat,
    institutionChoice: InstitutionChoice,
    selectedInstitutionId: Option<int>,
    showAddInstitutionForm: bool,
    newInstitution: InstitutionDraft,
    addInstitutionError: string,
    courseName: string,
    courseCode: string,
    createError: string)

  /** The dialog as openAddCourse leaves it: step 1, an existing institution to choose, every field empty. */
  const FRESH_DIALOG := Dialog(1, Existing, None, false, EMPTY_DRAFT, "", "", "", "")

  class CoursesPage {
    var showAddCourse: bool
    var dialog: Dialog
    var institutions: seq<Institution>
    var addInstitutionSubmitting: bool
    var createSubmitting: bool
    var courses: seq<Course>
    var coursesLoading: bool

    /** The wizard is at step 1 or 2. */
    ghost predicate Valid()
      reads this
    {
      dialog.step == 1 || dialog.step == 2
    }

    constructor()
      ensures Valid() && !showAddCourse && dialog == FRESH_DIALOG
      ensures institutions == [] && courses == [] && coursesLoading
      ensures !addInstitutionSubmitting && !createSubmitting
    {
      showAddCourse := false;
      dialog := FRESH_DIALOG;
      institutions := [];
      addInstitutionSubmitting := false;
      createSubmitting := false;
      courses := [];
      coursesLoading := true;
    }

    /** openAddCourse: the dialog opens afresh; the lists and the submitting flags are left. */
    method OpenAddCourse()
      modifies this
      ensures Valid() && showAddCourse && dialog == FRESH_DIALOG
      ensures institutions == old(institutions) && courses == old(courses) && coursesLoading == old(coursesLoading)
      ensures addInstitutionSubmitting == old(addInstitutionSubmitting) && createSubmitting == old(createSubmitting)
    {
      showAddCourse := true;
      dialog := FRESH_DIALOG;
    }

    /** goToStep2: step 2, with the create error cleared. */
    method GoToStep2()
      modifies this`dialog
      ensures Valid() && dialog == old(dialog).(step := 2, createError := "")
      ensures showAddCourse == old(showAddCourse) && institutions == old(institutions)
    {
      dialog := dialog.(createError := "");
      dialog := dialog.(step := 2);
    }

    /** backToStep1: step 1, with the create error cleared. */
    method BackToStep1()
      modifies this`dialog
      ensures Valid() && dialog == old(dialog).(step := 1, createError := "")
      ensures showAddCourse == old(showAddCourse) && institutions == old(institutions)
    {
      dialog := dialog.(step := 1);
      dialog := dialog.(createError := "");
    }

    /** closeAddCourse: the dialog closes at step 1 and the course list is loaded again. */
    method CloseAddCourse(reload: Reload)
      modifies this`showAddCourse, this`dialog, this`courses, this`coursesLoading
      ensures Valid() && !showAddCourse && !coursesLoading
      ensures dialog == old(dialog).(step := 1, showAddInstitutionForm := false)
      ensures reload.Reloaded? ==> courses == (if reload.courses.Some? then reload.courses.value else [])
      ensures reload.ReloadThrew? ==> courses == old(courses)
      ensures institutions == old(institutions)
      ensures createSubmitting == old(createSubmitting) && addInstitutionSubmitting == old(addInstitutionSubmitting)
    {
      showAddCourse := false;
      dialog := dialog.(step := 1, showAddInstitutionForm := false);
      coursesLoading := true;
      if reload.Reloaded? {
        courses := if reload.courses.Some? then reload.courses.value else [];
      }
      coursesLoading := false;
    }

    /**
     * handleAddInstitution: on success the new institution is appended and selected and the form
     * hidden and emptied; a non-OK answer sets the error and leaves the list.
     */
    method AddInstitution(outcome: Answer<Institution>) returns (sent: InstitutionPayload)
      modifies this`dialog, this`institutions, this`addInstitutionSubmitting
      ensures sent == InstitutionRequest(old(dialog).newInstitution)
      ensures !addInstitutionSubmitting
      ensures outcome.Answered? && outcome.ok && outcome.record.Some? ==>
        institutions == old(institutions) + [outcome.record.value]
        && dialog == old(dialog).(selectedInstitutionId := Some(outcome.record.value.id), showAddInstitutionForm := false,
                                  newInstitution := EMPTY_DRAFT, addInstitutionError := "")
      ensures outcome.Answered? && !outcome.ok ==>
        institutions == old(institutions)
        && dialog == old(dialog).(addInstitutionError := OrElse(outcome.error, "Failed to add institution."))
      ensures (outcome.Threw? || (outcome.ok && outcome.record.None?)) ==>
        institutions == old(institutions) && dialog == old(dialog).(addInstitutionError := "")
      ensures showAddCourse == old(showAddCourse) && courses == old(courses)
    {
      dialog := dialog.(addInstitutionError := "");
      addInstitutionSubmitting := true;
      sent := InstitutionRequest(dialog.newInstitution);
      match outcome {
        case Threw =>
        case Answered(ok, record, message) =>
          if !ok {
            dialog := dialog.(addInstitutionError := OrElse(message, "Failed to add institution."));
          } else if record.Some? {
            institutions := institutions + [record.value];
            dialog := dialog.(selectedInstitutionId := Some(record.value.id));
            dialog := dialog.(showAddInstitutionForm := false, newInstitution := EMPTY_DRAFT);
          }
      }
      addInstitutionSubmitting := false;
    }

    /**
     * handleCreateCourse: a blank name is refused before any request; on success the dialog
     * closes, otherwise the server's error or a default is shown.
     */
    method CreateCourse(outcome: Answer<Course>, reload: Reload) returns (sent: Option<CoursePayload>)
      requires Valid()
      modifies this`dialog, this`createSubmitting, this`showAddCourse, this`courses, this`coursesLoading
      ensures Valid()
      ensures sent == CourseRequest(old(dialog).courseName, old(dialog).courseCode,
                                    old(dialog).institutionChoice, old(dialog).selectedInstitutionId)
      ensures IsBlank(old(dialog).courseName) ==>
        dialog == old(dialog).(createError := "Course name is required.")
        && createSubmitting == old(createSubmitting) && showAddCourse == old(showAddCourse)
      ensures !IsBlank(old(dialog).courseName) ==> !createSubmitting
      ensures !IsBlank(old(dialog).courseName) && outcome.Answered? && outcome.ok ==>
        !showAddCourse && dialog == old(dialog).(step := 1, showAddInstitutionForm := false, createError := "")
      ensures !IsBlank(old(dialog).courseName) && outcome.Answered? && !outcome.ok ==>
        showAddCourse == old(showAddCourse)
        && dialog == old(dialog).(createError := OrElse(outcome.error, "Failed to create course."))
      ensures !IsBlank(old(dialog).courseName) && outcome.Threw? ==>
        showAddCourse == old(showAddCourse) && dialog == old(dialog).(createError := "")
      ensures !IsBlank(old(dialog).courseName) && outcome.Answered? && outcome.ok ==>
        !coursesLoading
        && (reload.Reloaded? ==> courses == (if reload.courses.Some? then reload.courses.value else []))
        && (reload.ReloadThrew? ==> courses == old(courses))
      ensures !(!IsBlank(old(dialog).courseName) && outcome.Answered? && outcome.ok) ==>
        courses == old(courses) && coursesLoading == old(coursesLoading)
      ensures institutions == old(institutions) && addInstitutionSubmitting == old(addInstitutionSubmitting)
    {
      dialog := dialog.(createError := "");
      sent := CourseRequest(dialog.courseName, dialog.courseCode, dialog.institutionChoice, dialog.selectedInstitutionId);
      if sent.None? {
        dialog := dialog.(createError := "Course name is required.");
        return;
      }
      createSubmitting := true;
      match outcome {
        case Threw =>
        case Answered(ok, _, message) =>
          if !ok {
            dialog := dialog.(createError := OrElse(message, "Failed to create course."));
          } else {
            CloseAddCourse(reload);
          }
      }
      createSubmitting := false;
    }
  }
}

/**
 * The class (course) editor: the draft course the modal edits, how each
 * input changes it, which students the enrolment list offers, how a
 * course's teacher is labelled, and what a submit sends to the store.
 */
module ClassManagement {
  import opened Wrappers
  import opened Seqs
  import opened JsText
  import opened Types
  import opened Store

  /**
   * `emptyCourse`. Subject and schedule are missing from it in the
   * application (so `undefined`); here they are the empty string and the
   * empty schedule.
   */
  const EmptyCourse: CourseInfo := CourseInfo("", None, [], 0, "", [], None, None)

  /** The inputs `handleChange` serves, by their `name` attribute. */
  datatype CourseField = NameField | GradeLevelField | TeacherField

  /** What a submit hands to the store. */
  datatype SubmitAction = AddCourse(info: CourseInfo) | UpdateCourse(course: Course)

  /**
   * `{ ...prev, [name]: parsedValue }`, with the grade parsed as
   * `parseInt(value) || 0` and the enrolment cleared on a grade change.
   * The teacher select stores its option value, so "Unassigned" stores `""`.
   */
  function ApplyChange(draft: CourseInfo, field: CourseField, value: string): (r: CourseInfo)
    ensures field == GradeLevelField ==>
      r == draft.(gradeLevel := ParseIntOrZero(value), studentIds := [])
    ensures field == NameField ==> r == draft.(name := value)
    ensures field == TeacherField ==> r == draft.(teacherId := Some(value))
    ensures field != GradeLevelField ==> r.studentIds == draft.studentIds && r.gradeLevel == draft.gradeLevel
  {
    match field
    case NameField => draft.(name := value)
    case TeacherField => draft.(teacherId := Some(value))
    case GradeLevelField =>
      var updated := draft.(gradeLevel := ParseIntOrZero(value));
      updated.(studentIds := [])
  }

  /** A grade that does not parse as an integer becomes 0. */
  lemma NonNumericGradeIsZero(draft: CourseInfo, value: string)
    requires ParseInt(value).None?
    ensures ApplyChange(draft, GradeLevelField, value).gradeLevel == 0
    ensures ApplyChange(draft, GradeLevelField, value).studentIds == []
  {
  }

  /** A grade typed as digits is that number. */
  lemma NumericGradeIsParsed(draft: CourseInfo, n: nat)
    ensures ApplyChange(draft, GradeLevelField, NatToString(n)).gradeLevel == n
  {
    ParseIntOfDigits(NatToString(n));
    NatToStringRoundTrip(n);
  }

  function GradeIs(gradeLevel: int): Student -> bool {
    (s: Student) => s.info.grade == gradeLevel
  }

  /** `studentsForGrade`: none while no grade is chosen, otherwise the students of that grade in order. */
  function StudentsForGrade(students: seq<Student>, gradeLevel: int): (r: seq<Student>)
    ensures gradeLevel == 0 ==> r == []
    ensures IsSubsequence(r, students)
    ensures forall i :: 0 <= i < |r| ==> r[i].info.grade == gradeLevel
    ensures gradeLevel != 0 ==>
      forall i :: 0 <= i < |students| && students[i].info.grade == gradeLevel ==> students[i] in r
  {
    if gradeLevel == 0 then []
    else
      FilterIsSubsequence(students, GradeIs(gradeLevel));
      Filter(students, GradeIs(gradeLevel))
  }

  /** `getTeacherName`. */
  function TeacherName(teachers: seq<Teacher>, teacherId: Option<string>): (r: string)
    ensures teacherId.None? || teacherId == Some("") ==> r == "Unassigned"
    ensures teacherId.Some? && teacherId.value != "" && !HasTeacher(teachers, teacherId.value) ==> r == "Unknown"
    ensures teacherId.Some? && teacherId.value != "" && HasTeacher(teachers, teacherId.value) ==>
      exists k :: 0 <= k < |teachers| && teachers[k].id == teacherId.value &&
        (forall j :: 0 <= j < k ==> teachers[j].id != teacherId.value) &&
        r == teachers[k].info.firstName + " " + teachers[k].info.lastName
  {
    if teacherId.None? || teacherId.value == "" then "Unassigned"
    else
      match Find(teachers, (t: Teacher) => t.id == teacherId.value)
      case None => "Unknown"
      case Some(t) => t.info.firstName + " " + t.info.lastName
  }

  /** In an intact store no course is labelled "Unknown". */
  lemma IntactStoreHasNoUnknownTeacher(students: seq<Student>, teachers: seq<Teacher>,
                                       courses: seq<Course>, attendance: seq<AttendanceRecord>, i: int)
    requires Integral(students, teachers, courses, attendance) && 0 <= i < |courses|
    ensures TeacherName(teachers, courses[i].info.teacherId) != "Unknown"
  {
    var id := courses[i].info.teacherId;
    if id.Some? && id.value != "" {
      var r := TeacherName(teachers, id);
      var k :| 0 <= k < |teachers| && teachers[k].id == id.value &&
        r == teachers[k].info.firstName + " " + teachers[k].info.lastName;
      assert r[|teachers[k].info.firstName|] == ' ';
    }
  }

  /** After `deleteTeacher`, the courses that had that teacher show "Unassigned". */
  lemma DeletedTeacherShowsUnassigned(teachers: seq<Teacher>, courses: seq<Course>, id: string, i: int)
    requires 0 <= i < |courses| && courses[i].info.teacherId == Some(id)
    ensures TeacherName(RemoveKey(teachers, TeacherId, id), UnassignTeacher(courses, id)[i].info.teacherId) == "Unassigned"
  {
  }

  /**
   * The "Unassigned" option stores `""`, not `null`: unless some teacher
   * has the empty id, such a course breaks the store's rule that a set
   * teacher id names a teacher, which `deleteTeacher` keeps by writing `null`.
   */
  lemma UnassignedOptionIsNotNull(draft: CourseInfo, students: seq<Student>, teachers: seq<Teacher>,
                                  courses: seq<Course>, attendance: seq<AttendanceRecord>, id: string)
    requires !HasTeacher(teachers, "")
    ensures ApplyChange(draft, TeacherField, "").teacherId == Some("")
    ensures TeacherName(teachers, ApplyChange(draft, TeacherField, "").teacherId) == "Unassigned"
    ensures !Integral(students, teachers, courses + [Course(id, ApplyChange(draft, TeacherField, ""))], attendance)
  {
    var cs := courses + [Course(id, ApplyChange(draft, TeacherField, ""))];
    assert cs[|courses|].info.teacherId == Some("");
  }

  /** Some student has this id and this grade. */
  predicate InGrade(students: seq<Student>, id: string, gradeLevel: int) {
    exists k :: 0 <= k < |students| && students[k].id == id && students[k].info.grade == gradeLevel
  }

  /** Every enrolled id names a student of the draft's grade. */
  predicate EnrolmentMatchesGrade(draft: CourseInfo, students: seq<Student>) {
    forall j :: 0 <= j < |draft.studentIds| ==> InGrade(students, draft.studentIds[j], draft.gradeLevel)
  }

  /** Selecting among the offered students keeps the enrolment within the grade. */
  lemma SelectionMatchesGrade(draft: CourseInfo, students: seq<Student>, selectedIds: seq<string>)
    requires forall j :: 0 <= j < |selectedIds| ==>
      HasStudent(StudentsForGrade(students, draft.gradeLevel), selectedIds[j])
    ensures EnrolmentMatchesGrade(draft.(studentIds := selectedIds), students)
  {
    var offered := StudentsForGrade(students, draft.gradeLevel);
    forall j | 0 <= j < |selectedIds|
      ensures InGrade(students, selectedIds[j], draft.gradeLevel)
    {
      var m :| 0 <= m < |offered| && offered[m].id == selectedIds[j];
      assert offered[m] in students;
      var k :| 0 <= k < |students| && students[k] == offered[m];
    }
  }

  /** Every change keeps the enrolment within the grade. */
  lemma ChangeKeepsEnrolment(draft: CourseInfo, students: seq<Student>, field: CourseField, value: string)
    requires EnrolmentMatchesGrade(draft, students)
    ensures EnrolmentMatchesGrade(ApplyChange(draft, field, value), students)
  {
    var r := ApplyChange(draft, field, value);
    if field != GradeLevelField {
      assert r.studentIds == draft.studentIds && r.gradeLevel == draft.gradeLevel;
    }
  }

  /** The editor's form state. */
  class CourseEditor {
    var draft: CourseInfo
    /** The id of the course being edited; `None` while adding. */
    var draftId: Option<string>
    var isEditMode: bool

    /** Only an edited course carries an id. */
    predicate Valid()
      reads this
    {
      isEditMode <==> draftId.Some?
    }

    constructor ()
      ensures Valid() && draft == EmptyCourse && !isEditMode
    {
      draft := EmptyCourse;
      draftId := None;
      isEditMode := false;
    }

    /** `openAddModal`. */
    method OpenAdd()
      modifies this
      ensures Valid() && draft == EmptyCourse && !isEditMode
    {
      draft := EmptyCourse;
      draftId := None;
      isEditMode := false;
    }

    /** `openEditModal(course)`. */
    method OpenEdit(course: Course)
      modifies this
      ensures Valid() && draft == course.info && draftId == Some(course.id) && isEditMode
    {
      draft := course.info;
      draftId := Some(course.id);
      isEditMode := true;
    }

    /** `handleChange`. */
    method HandleChange(field: CourseField, value: string)
      modifies this
      ensures draft == ApplyChange(old(draft), field, value)
      ensures draftId == old(draftId) && isEditMode == old(isEditMode)
      ensures field == GradeLevelField ==> draft.studentIds == []
      ensures forall students: seq<Student> :: EnrolmentMatchesGrade(old(draft), students) ==>
                EnrolmentMatchesGrade(draft, students)
    {
      ghost var before := draft;
      var updated: CourseInfo;
      match field {
        case NameField => updated := draft.(name := value);
        case TeacherField => updated := draft.(teacherId := Some(value));
        case GradeLevelField =>
          updated := draft.(gradeLevel := ParseIntOrZero(value));
          updated := updated.(studentIds := []);
      }
      draft := updated;
      forall students: seq<Student> | EnrolmentMatchesGrade(before, students)
        ensures EnrolmentMatchesGrade(draft, students)
      {
        ChangeKeepsEnrolment(before, students, field, value);
      }
    }

    /** `handleStudentSelect`: the selected options, in list order, become the enrolment. */
    method HandleStudentSelect(selectedIds: seq<string>)
      modifies this
      ensures draft == old(draft).(studentIds := selectedIds)
      ensures draftId == old(draftId) && isEditMode == old(isEditMode)
    {
      draft := draft.(studentIds := selectedIds);
    }

    /** `handleSubmit`: an update of the edited course, or an add of the new one. */
    method HandleSubmit() returns (action: SubmitAction)
      requires Valid()
      ensures isEditMode ==> action == UpdateCourse(Course(draftId.value, draft))
      ensures !isEditMode ==> action == AddCourse(draft)
    {
      if isEditMode {
        action := UpdateCourse(Course(draftId.value, draft));
      } else {
        action := AddCourse(draft);
      }
    }
  }
}

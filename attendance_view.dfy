/**
 * The attendance screen: the roster of the selected class, the status it
 * shows for each student on the selected date, and the record it sends to
 * the store when a status button is pressed.
 */
module AttendanceView {
  import opened Wrappers
  import opened Seqs
  import opened Types
  import opened Store

  /** `c => c.id === id`. */
  function CourseIdIs(id: string): Course -> bool {
    (c: Course) => c.id == id
  }

  /** `s => s.id === id`. */
  function StudentIdIs(id: string): Student -> bool {
    (s: Student) => s.id == id
  }

  /** `id => students.some(s => s.id === id)`. */
  function ResolvesIn(students: seq<Student>): string -> bool {
    (id: string) => HasStudent(students, id)
  }

  /** `courses[0]?.id || ''`: the class selected when the screen opens. */
  function InitialCourse(courses: seq<Course>): (r: string)
    ensures |courses| == 0 ==> r == ""
    ensures |courses| > 0 ==> r == courses[0].id
  {
    if |courses| > 0 && courses[0].id != "" then courses[0].id else ""
  }

  /** The initial selection names a class exactly when there is one. */
  lemma InitialCourseResolves(courses: seq<Course>)
    ensures Find(courses, CourseIdIs(InitialCourse(courses))).Some? <==> |courses| > 0
  {
    if |courses| > 0 {
      assert CourseIdIs(InitialCourse(courses))(courses[0]);
    }
  }

  /**
   * `ids.map(id => students.find(s => s.id === id)).filter(Boolean)`: the
   * first student with each id, skipping ids no student has.
   */
  function ResolveStudents(ids: seq<string>, students: seq<Student>): (r: seq<Student>)
    ensures |r| <= |ids|
    decreases |ids|
  {
    if |ids| == 0 then []
    else
      match Find(students, StudentIdIs(ids[0]))
      case None => ResolveStudents(ids[1..], students)
      case Some(s) => [s] + ResolveStudents(ids[1..], students)
  }

  /**
   * The roster lists, in order, exactly the ids some student has, and each
   * entry is the first student with its id.
   */
  lemma {:induction false} ResolveStudentsSpec(ids: seq<string>, students: seq<Student>)
    ensures Map(ResolveStudents(ids, students), StudentId) == Filter(ids, ResolvesIn(students))
    ensures var r := ResolveStudents(ids, students);
      forall i :: 0 <= i < |r| ==> Find(students, StudentIdIs(r[i].id)) == Some(r[i])
    decreases |ids|
  {
    if |ids| > 0 {
      ResolveStudentsSpec(ids[1..], students);
      var rest := ResolveStudents(ids[1..], students);
      match Find(students, StudentIdIs(ids[0]))
      case None =>
        assert !ResolvesIn(students)(ids[0]);
      case Some(s) =>
        assert ResolvesIn(students)(ids[0]);
        assert Map([s] + rest, StudentId) == [s.id] + Map(rest, StudentId);
    }
  }

  /** `studentsInClass`. */
  function StudentsInClass(courses: seq<Course>, students: seq<Student>, selectedCourseId: string): (r: seq<Student>)
    ensures Find(courses, CourseIdIs(selectedCourseId)).None? ==> r == []
    ensures Find(courses, CourseIdIs(selectedCourseId)).Some? ==>
      var ids := Find(courses, CourseIdIs(selectedCourseId)).value.info.studentIds;
      |r| <= |ids| && Map(r, StudentId) == Filter(ids, ResolvesIn(students))
    ensures forall i :: 0 <= i < |r| ==> Find(students, StudentIdIs(r[i].id)) == Some(r[i])
  {
    match Find(courses, CourseIdIs(selectedCourseId))
    case None => []
    case Some(c) =>
      ResolveStudentsSpec(c.info.studentIds, students);
      ResolveStudents(c.info.studentIds, students)
  }

  /** `a => a.studentId === studentId && a.date === date`. */
  function AtSlot(studentId: string, date: string): AttendanceRecord -> bool {
    (a: AttendanceRecord) => a.studentId == studentId && a.date == date
  }

  /** `getStatusForStudent`: the status of the first matching record, `'present'` if there is none. */
  function StatusFor(attendance: seq<AttendanceRecord>, studentId: string, date: string): (r: AttendanceStatus)
    ensures (forall j :: 0 <= j < |attendance| ==> Slot(attendance[j]) != (studentId, date)) ==> r == Present
    ensures forall k :: 0 <= k < |attendance| && Slot(attendance[k]) == (studentId, date) &&
                        (forall j :: 0 <= j < k ==> Slot(attendance[j]) != (studentId, date)) ==>
                        r == attendance[k].status
  {
    match Find(attendance, AtSlot(studentId, date))
    case None => Present
    case Some(a) => a.status
  }

  /** `handleStatusChange`: the record sent to `onUpdate`. */
  function StatusChange(studentId: string, status: AttendanceStatus, selectedDate: string): AttendanceRecord {
    AttendanceRecord(studentId, selectedDate, status)
  }

  /** After the store has applied a status change, the screen shows that status. */
  lemma StatusChangeTakesEffect(attendance: seq<AttendanceRecord>, studentId: string,
                                status: AttendanceStatus, selectedDate: string)
    ensures StatusFor(Upsert(attendance, StatusChange(studentId, status, selectedDate)), studentId, selectedDate) == status
  {
    var record := StatusChange(studentId, status, selectedDate);
    var r := Upsert(attendance, record);
    UpsertFirstMatch(attendance, record);
    var k :| 0 <= k < |r| && r[k] == record && SameSlotAs(record)(r[k]) &&
             forall j :: 0 <= j < k ==> !SameSlotAs(record)(r[j]);
    assert forall j :: 0 <= j < k ==> Slot(r[j]) != (studentId, selectedDate) by {
      forall j | 0 <= j < k ensures Slot(r[j]) != (studentId, selectedDate) {
        assert !SameSlotAs(record)(r[j]);
      }
    }
  }

  /** A status change leaves what the screen shows for every other student and date as it was. */
  lemma StatusChangeElsewhere(attendance: seq<AttendanceRecord>, record: AttendanceRecord,
                              studentId: string, date: string)
    requires (studentId, date) != Slot(record)
    ensures StatusFor(Upsert(attendance, record), studentId, date) == StatusFor(attendance, studentId, date)
  {
    var r := Upsert(attendance, record);
    var k := FindIndex(attendance, SameSlotAs(record));
    assert forall j :: 0 <= j < |attendance| ==>
      (Slot(r[j]) == (studentId, date) <==> Slot(attendance[j]) == (studentId, date));
    var m := FindIndex(attendance, AtSlot(studentId, date));
    if m == -1 {
      forall j | 0 <= j < |r| ensures Slot(r[j]) != (studentId, date) {
        if j < |attendance| {
          assert !AtSlot(studentId, date)(attendance[j]);
        }
      }
    } else {
      assert Slot(r[m]) == (studentId, date);
      forall j | 0 <= j < m ensures Slot(r[j]) != (studentId, date) {
        assert !AtSlot(studentId, date)(attendance[j]);
      }
      assert StatusFor(attendance, studentId, date) == attendance[m].status;
    }
  }
}

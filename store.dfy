/**
 * The root store of the dashboard: six collections held as state and
 * changed only by the add, update and delete handlers. Each handler is a
 * method of `SchoolStore` whose new state is given by the pure functions
 * of this module; the lemmas state what those functions promise.
 *
 * `Date.now()` is not read here: every add takes the timestamp as `now`,
 * and `addAnnouncement` takes the ISO string of the current instant.
 */
module Store {
  import opened Wrappers
  import opened Seqs
  import opened JsText
  import opened Types

  const AvatarPrefix := "https://i.pravatar.cc/150?u="

  /** The id an add generates: the kind prefix followed by the timestamp. */
  function NewId(prefix: string, now: nat): string {
    prefix + NatToString(now)
  }

  /** Two adds of the same kind get the same id exactly when their timestamps agree. */
  lemma NewIdInjective(prefix: string, now1: nat, now2: nat)
    ensures NewId(prefix, now1) == NewId(prefix, now2) <==> now1 == now2
  {
    if NewId(prefix, now1) == NewId(prefix, now2) {
      assert NewId(prefix, now1)[|prefix|..] == NatToString(now1);
      assert NewId(prefix, now2)[|prefix|..] == NatToString(now2);
      NatToStringRoundTrip(now1);
      NatToStringRoundTrip(now2);
    }
  }

  function StudentId(s: Student): string { s.id }
  function TeacherId(t: Teacher): string { t.id }
  function StaffId(s: Staff): string { s.id }
  function CourseId(c: Course): string { c.id }
  function AnnouncementId(a: Announcement): string { a.id }
  function AttendanceStudentId(r: AttendanceRecord): string { r.studentId }

  predicate HasStudent(students: seq<Student>, id: string) {
    exists i :: 0 <= i < |students| && students[i].id == id
  }

  predicate HasTeacher(teachers: seq<Teacher>, id: string) {
    exists i :: 0 <= i < |teachers| && teachers[i].id == id
  }

  // ---------------------------------------------------------------------
  // Adds

  /** The record `addStudent` appends. */
  function NewStudent(info: StudentInfo, now: nat): (s: Student)
    ensures s.id == NewId("s", now) && s.avatarUrl == AvatarPrefix + s.id && s.info == info
  {
    var id := NewId("s", now);
    Student(id, AvatarPrefix + id, info)
  }

  function NewTeacher(info: TeacherInfo, now: nat): (t: Teacher)
    ensures t.id == NewId("t", now) && t.avatarUrl == AvatarPrefix + t.id && t.info == info
  {
    var id := NewId("t", now);
    Teacher(id, AvatarPrefix + id, info)
  }

  function NewStaff(info: StaffInfo, now: nat): (s: Staff)
    ensures s.id == NewId("st", now) && s.avatarUrl == AvatarPrefix + s.id && s.info == info
  {
    var id := NewId("st", now);
    Staff(id, AvatarPrefix + id, info)
  }

  function NewCourse(info: CourseInfo, now: nat): (c: Course)
    ensures c.id == NewId("c", now) && c.info == info
  {
    Course(NewId("c", now), info)
  }

  function NewAnnouncement(info: AnnouncementInfo, now: nat, isoNow: string): (a: Announcement)
    ensures a.id == NewId("a", now) && a.date == isoNow && a.info == info
  {
    Announcement(NewId("a", now), isoNow, info)
  }

  /**
   * Ids stay unique across an append only when the clock has moved on: a
   * timestamp that no existing id was made from gives a fresh id.
   */
  lemma AppendFreshKeepsIdsDistinct<T>(s: seq<T>, key: T -> string, x: T)
    requires KeysDistinct(s, key)
    requires forall i :: 0 <= i < |s| ==> key(s[i]) != key(x)
    ensures KeysDistinct(s + [x], key)
  {
    var r := s + [x];
    forall i, j | 0 <= i < j < |r| ensures key(r[i]) != key(r[j]) {
      if j < |s| {
        assert r[i] == s[i] && r[j] == s[j];
      } else {
        assert r[i] == s[i] && r[j] == x;
      }
    }
  }

  /** Two students added with the same timestamp collide: uniqueness rests on the clock alone. */
  lemma SameTimestampCollides(a: StudentInfo, b: StudentInfo, now: nat)
    ensures NewStudent(a, now).id == NewStudent(b, now).id
    ensures !KeysDistinct([NewStudent(a, now), NewStudent(b, now)], StudentId)
  {
    var r := [NewStudent(a, now), NewStudent(b, now)];
    assert StudentId(r[0]) == StudentId(r[1]);
  }

  // ---------------------------------------------------------------------
  // Deletes

  /** `c.studentIds.filter(id => id !== studentId)` on one course. */
  function WithoutStudent(c: Course, studentId: string): (r: Course)
    ensures r.id == c.id
    ensures r.info == c.info.(studentIds := r.info.studentIds)
    ensures IsSubsequence(r.info.studentIds, c.info.studentIds)
    ensures forall j :: 0 <= j < |r.info.studentIds| ==> r.info.studentIds[j] != studentId
    ensures forall j :: 0 <= j < |c.info.studentIds| && c.info.studentIds[j] != studentId ==>
              c.info.studentIds[j] in r.info.studentIds
  {
    c.(info := c.info.(studentIds := RemoveKey(c.info.studentIds, (x: string) => x, studentId)))
  }

  /** The course list after `deleteStudent`. */
  function DropStudentFromCourses(courses: seq<Course>, studentId: string): (r: seq<Course>)
    ensures |r| == |courses|
    ensures forall i :: 0 <= i < |courses| ==> r[i] == WithoutStudent(courses[i], studentId)
  {
    Map(courses, (c: Course) => WithoutStudent(c, studentId))
  }

  /** `c.teacherId === teacherId ? { ...c, teacherId: null } : c` on one course. */
  function Unassign(c: Course, teacherId: string): (r: Course)
    ensures c.info.teacherId == Some(teacherId) ==> r == c.(info := c.info.(teacherId := None))
    ensures c.info.teacherId != Some(teacherId) ==> r == c
  {
    if c.info.teacherId == Some(teacherId) then c.(info := c.info.(teacherId := None)) else c
  }

  /** The course list after `deleteTeacher`. */
  function UnassignTeacher(courses: seq<Course>, teacherId: string): (r: seq<Course>)
    ensures |r| == |courses|
    ensures forall i :: 0 <= i < |courses| ==> r[i] == Unassign(courses[i], teacherId)
  {
    Map(courses, (c: Course) => Unassign(c, teacherId))
  }

  /**
   * `deleteStudent` cascades: the student is gone, every course remains but
   * no longer lists the id, and no attendance record of the student is left.
   */
  lemma DeleteStudentCascade(students: seq<Student>, courses: seq<Course>,
                             attendance: seq<AttendanceRecord>, id: string)
    ensures !HasStudent(RemoveKey(students, StudentId, id), id)
    ensures var cs := DropStudentFromCourses(courses, id);
      |cs| == |courses| &&
      forall i :: 0 <= i < |cs| ==> cs[i].id == courses[i].id && id !in cs[i].info.studentIds
    ensures forall i :: 0 <= i < |RemoveKey(attendance, AttendanceStudentId, id)| ==>
              RemoveKey(attendance, AttendanceStudentId, id)[i].studentId != id
  {
    var ra := RemoveKey(attendance, AttendanceStudentId, id);
    forall i | 0 <= i < |ra| ensures ra[i].studentId != id {
      assert AttendanceStudentId(ra[i]) != id;
    }
  }

  /**
   * `deleteTeacher` deletes no course: the courses that named the teacher
   * now have no teacher, and every other course is unchanged.
   */
  lemma DeleteTeacherCascade(courses: seq<Course>, id: string)
    ensures var cs := UnassignTeacher(courses, id);
      |cs| == |courses| &&
      (forall i :: 0 <= i < |cs| ==> cs[i].info.teacherId != Some(id)) &&
      (forall i :: 0 <= i < |cs| && courses[i].info.teacherId == Some(id) ==>
         cs[i].info.teacherId.None? && cs[i].id == courses[i].id) &&
      (forall i :: 0 <= i < |cs| && courses[i].info.teacherId != Some(id) ==> cs[i] == courses[i])
  {
  }

  // ---------------------------------------------------------------------
  // Referential integrity

  /**
   * Every id a course or an attendance record lists names a student, and
   * every teacher id that is not `null` names a teacher.
   */
  predicate Integral(students: seq<Student>, teachers: seq<Teacher>,
                     courses: seq<Course>, attendance: seq<AttendanceRecord>) {
    (forall i, j :: 0 <= i < |courses| && 0 <= j < |courses[i].info.studentIds| ==>
       HasStudent(students, courses[i].info.studentIds[j])) &&
    (forall i :: 0 <= i < |courses| && courses[i].info.teacherId.Some? ==>
       HasTeacher(teachers, courses[i].info.teacherId.value)) &&
    (forall i :: 0 <= i < |attendance| ==> HasStudent(students, attendance[i].studentId))
  }

  /** A student other than the deleted one is still present after the delete. */
  lemma StillHasStudent(students: seq<Student>, id: string, other: string)
    requires HasStudent(students, other) && other != id
    ensures HasStudent(RemoveKey(students, StudentId, id), other)
  {
    var k :| 0 <= k < |students| && students[k].id == other;
    var rs := RemoveKey(students, StudentId, id);
    assert StudentId(students[k]) != id;
    var m :| 0 <= m < |rs| && rs[m] == students[k];
  }

  lemma StillHasTeacher(teachers: seq<Teacher>, id: string, other: string)
    requires HasTeacher(teachers, other) && other != id
    ensures HasTeacher(RemoveKey(teachers, TeacherId, id), other)
  {
    var k :| 0 <= k < |teachers| && teachers[k].id == other;
    var rs := RemoveKey(teachers, TeacherId, id);
    assert TeacherId(teachers[k]) != id;
    var m :| 0 <= m < |rs| && rs[m] == teachers[k];
  }

  /** `deleteStudent` keeps the collections referentially intact. */
  lemma DeleteStudentPreservesIntegrity(students: seq<Student>, teachers: seq<Teacher>,
                                        courses: seq<Course>, attendance: seq<AttendanceRecord>, id: string)
    requires Integral(students, teachers, courses, attendance)
    ensures Integral(RemoveKey(students, StudentId, id), teachers,
                     DropStudentFromCourses(courses, id), RemoveKey(attendance, AttendanceStudentId, id))
  {
    var rs := RemoveKey(students, StudentId, id);
    var cs := DropStudentFromCourses(courses, id);
    var ra := RemoveKey(attendance, AttendanceStudentId, id);
    forall i, j | 0 <= i < |cs| && 0 <= j < |cs[i].info.studentIds|
      ensures HasStudent(rs, cs[i].info.studentIds[j])
    {
      var x := cs[i].info.studentIds[j];
      var old_ids := courses[i].info.studentIds;
      assert x in RemoveKey(old_ids, (y: string) => y, id);
      var k :| 0 <= k < |old_ids| && old_ids[k] == x;
      StillHasStudent(students, id, x);
    }
    forall i | 0 <= i < |cs| && cs[i].info.teacherId.Some?
      ensures HasTeacher(teachers, cs[i].info.teacherId.value)
    {
      assert cs[i].info.teacherId == courses[i].info.teacherId;
    }
    forall i | 0 <= i < |ra| ensures HasStudent(rs, ra[i].studentId) {
      var k :| 0 <= k < |attendance| && attendance[k] == ra[i];
      assert AttendanceStudentId(ra[i]) != id;
      StillHasStudent(students, id, ra[i].studentId);
    }
  }

  /** `deleteTeacher` keeps the collections referentially intact. */
  lemma DeleteTeacherPreservesIntegrity(students: seq<Student>, teachers: seq<Teacher>,
                                        courses: seq<Course>, attendance: seq<AttendanceRecord>, id: string)
    requires Integral(students, teachers, courses, attendance)
    ensures Integral(students, RemoveKey(teachers, TeacherId, id), UnassignTeacher(courses, id), attendance)
  {
    var cs := UnassignTeacher(courses, id);
    forall i | 0 <= i < |cs| && cs[i].info.teacherId.Some?
      ensures HasTeacher(RemoveKey(teachers, TeacherId, id), cs[i].info.teacherId.value)
    {
      assert cs[i] == courses[i];
      StillHasTeacher(teachers, id, cs[i].info.teacherId.value);
    }
    forall i, j | 0 <= i < |cs| && 0 <= j < |cs[i].info.studentIds|
      ensures HasStudent(students, cs[i].info.studentIds[j])
    {
      assert cs[i].info.studentIds == courses[i].info.studentIds;
    }
  }

  // ---------------------------------------------------------------------
  // Attendance upsert

  /** The pair `(studentId, date)` that identifies an attendance record. */
  function Slot(r: AttendanceRecord): (string, string) { (r.studentId, r.date) }

  /** `r => r.studentId === record.studentId && r.date === record.date`. */
  function SameSlotAs(record: AttendanceRecord): AttendanceRecord -> bool {
    (r: AttendanceRecord) => Slot(r) == Slot(record)
  }

  /** The attendance list after `updateAttendance(record)`. */
  function Upsert(attendance: seq<AttendanceRecord>, record: AttendanceRecord): (r: seq<AttendanceRecord>)
    ensures var k := FindIndex(attendance, SameSlotAs(record));
      if k > -1 then |r| == |attendance| && r[k] == record &&
                     (forall i :: 0 <= i < |r| && i != k ==> r[i] == attendance[i])
      else r == attendance + [record]
  {
    var k := FindIndex(attendance, SameSlotAs(record));
    if k > -1 then attendance[k := record] else attendance + [record]
  }

  /** The record just written is the first one with its slot. */
  lemma UpsertFirstMatch(attendance: seq<AttendanceRecord>, record: AttendanceRecord)
    ensures Find(Upsert(attendance, record), SameSlotAs(record)) == Some(record)
  {
    var r := Upsert(attendance, record);
    var k := FindIndex(attendance, SameSlotAs(record));
    var m := FindIndex(r, SameSlotAs(record));
    var at := if k > -1 then k else |attendance|;
    assert SameSlotAs(record)(r[at]);
    forall j | 0 <= j < at ensures !SameSlotAs(record)(r[j]) {
      assert r[j] == attendance[j];
    }
    assert m == at;
  }

  /** If slots were unique before an upsert, they are unique after it. */
  lemma UpsertKeepsSlotsUnique(attendance: seq<AttendanceRecord>, record: AttendanceRecord)
    requires KeysDistinct(attendance, Slot)
    ensures KeysDistinct(Upsert(attendance, record), Slot)
  {
    var r := Upsert(attendance, record);
    var k := FindIndex(attendance, SameSlotAs(record));
    if k > -1 {
      forall i, j | 0 <= i < j < |r| ensures Slot(r[i]) != Slot(r[j]) {
        assert Slot(r[i]) == Slot(attendance[i]) && Slot(r[j]) == Slot(attendance[j]) by {
          assert SameSlotAs(record)(attendance[k]);
        }
      }
    } else {
      forall i | 0 <= i < |attendance| ensures Slot(attendance[i]) != Slot(record) {
        assert !SameSlotAs(record)(attendance[i]);
      }
      AppendFreshKeepsIdsDistinctPairs(attendance, record);
    }
  }

  lemma AppendFreshKeepsIdsDistinctPairs(s: seq<AttendanceRecord>, x: AttendanceRecord)
    requires KeysDistinct(s, Slot)
    requires forall i :: 0 <= i < |s| ==> Slot(s[i]) != Slot(x)
    ensures KeysDistinct(s + [x], Slot)
  {
    var r := s + [x];
    forall i, j | 0 <= i < j < |r| ensures Slot(r[i]) != Slot(r[j]) {
      if j < |s| {
        assert r[i] == s[i] && r[j] == s[j];
      } else {
        assert r[i] == s[i] && r[j] == x;
      }
    }
  }

  // ---------------------------------------------------------------------
  // The store

  /** The six collections `getInitialData` returns. */
  datatype Snapshot = Snapshot(
    students: seq<Student>,
    teachers: seq<Teacher>,
    staff: seq<Staff>,
    courses: seq<Course>,
    announcements: seq<Announcement>,
    attendance: seq<AttendanceRecord>)

  class SchoolStore {
    var students: seq<Student>
    var teachers: seq<Teacher>
    var staff: seq<Staff>
    var courses: seq<Course>
    var announcements: seq<Announcement>
    var attendance: seq<AttendanceRecord>

    predicate Integrity()
      reads this
    {
      Integral(students, teachers, courses, attendance)
    }

    function Contents(): Snapshot
      reads this
    {
      Snapshot(students, teachers, staff, courses, announcements, attendance)
    }

    constructor(initial: Snapshot)
      ensures Contents() == initial
    {
      students := initial.students;
      teachers := initial.teachers;
      staff := initial.staff;
      courses := initial.courses;
      announcements := initial.announcements;
      attendance := initial.attendance;
    }

    method AddStudent(info: StudentInfo, now: nat)
      modifies this
      ensures Contents() == old(Contents()).(students := old(students) + [NewStudent(info, now)])
      ensures old(Integrity()) ==> Integrity()
    {
      students := students + [NewStudent(info, now)];
      assert forall i :: 0 <= i < |old(students)| ==> students[i] == old(students)[i];
      assert forall id :: HasStudent(old(students), id) ==> HasStudent(students, id);
    }

    method UpdateStudent(updated: Student)
      modifies this
      ensures Contents() == old(Contents()).(students := ReplaceKey(old(students), StudentId, updated))
      ensures old(Integrity()) ==> Integrity()
    {
      students := Map(students, (s: Student) => if StudentId(s) == StudentId(updated) then updated else s);
      assert forall id :: HasStudent(old(students), id) ==> HasStudent(students, id) by {
        forall id | HasStudent(old(students), id) ensures HasStudent(students, id) {
          var k :| 0 <= k < |old(students)| && old(students)[k].id == id;
          assert StudentId(students[k]) == StudentId(old(students)[k]);
        }
      }
    }

    method DeleteStudent(id: string)
      modifies this
      ensures Contents() == old(Contents()).(
        students := RemoveKey(old(students), StudentId, id),
        courses := DropStudentFromCourses(old(courses), id),
        attendance := RemoveKey(old(attendance), AttendanceStudentId, id))
      ensures old(Integrity()) ==> Integrity()
    {
      if Integrity() {
        DeleteStudentPreservesIntegrity(students, teachers, courses, attendance, id);
      }
      students := RemoveKey(students, StudentId, id);
      courses := DropStudentFromCourses(courses, id);
      attendance := RemoveKey(attendance, AttendanceStudentId, id);
    }

    method AddTeacher(info: TeacherInfo, now: nat)
      modifies this
      ensures Contents() == old(Contents()).(teachers := old(teachers) + [NewTeacher(info, now)])
      ensures old(Integrity()) ==> Integrity()
    {
      teachers := teachers + [NewTeacher(info, now)];
      assert forall i :: 0 <= i < |old(teachers)| ==> teachers[i] == old(teachers)[i];
      assert forall id :: HasTeacher(old(teachers), id) ==> HasTeacher(teachers, id);
    }

    method UpdateTeacher(updated: Teacher)
      modifies this
      ensures Contents() == old(Contents()).(teachers := ReplaceKey(old(teachers), TeacherId, updated))
      ensures old(Integrity()) ==> Integrity()
    {
      teachers := Map(teachers, (t: Teacher) => if TeacherId(t) == TeacherId(updated) then updated else t);
      assert forall id :: HasTeacher(old(teachers), id) ==> HasTeacher(teachers, id) by {
        forall id | HasTeacher(old(teachers), id) ensures HasTeacher(teachers, id) {
          var k :| 0 <= k < |old(teachers)| && old(teachers)[k].id == id;
          assert TeacherId(teachers[k]) == TeacherId(old(teachers)[k]);
        }
      }
    }

    method DeleteTeacher(id: string)
      modifies this
      ensures Contents() == old(Contents()).(
        teachers := RemoveKey(old(teachers), TeacherId, id),
        courses := UnassignTeacher(old(courses), id))
      ensures old(Integrity()) ==> Integrity()
    {
      if Integrity() {
        DeleteTeacherPreservesIntegrity(students, teachers, courses, attendance, id);
      }
      teachers := RemoveKey(teachers, TeacherId, id);
      courses := UnassignTeacher(courses, id);
    }

    method AddStaff(info: StaffInfo, now: nat)
      modifies this
      ensures Contents() == old(Contents()).(staff := old(staff) + [NewStaff(info, now)])
      ensures Integrity() == old(Integrity())
    {
      staff := staff + [NewStaff(info, now)];
    }

    method UpdateStaff(updated: Staff)
      modifies this
      ensures Contents() == old(Contents()).(staff := ReplaceKey(old(staff), StaffId, updated))
      ensures Integrity() == old(Integrity())
    {
      staff := Map(staff, (s: Staff) => if StaffId(s) == StaffId(updated) then updated else s);
    }

    method DeleteStaff(id: string)
      modifies this
      ensures Contents() == old(Contents()).(staff := RemoveKey(old(staff), StaffId, id))
      ensures Integrity() == old(Integrity())
    {
      staff := RemoveKey(staff, StaffId, id);
    }

    method AddCourse(info: CourseInfo, now: nat)
      modifies this
      ensures Contents() == old(Contents()).(courses := old(courses) + [NewCourse(info, now)])
    {
      courses := courses + [NewCourse(info, now)];
    }

    method UpdateCourse(updated: Course)
      modifies this
      ensures Contents() == old(Contents()).(courses := ReplaceKey(old(courses), CourseId, updated))
    {
      courses := Map(courses, (c: Course) => if CourseId(c) == CourseId(updated) then updated else c);
    }

    method DeleteCourse(id: string)
      modifies this
      ensures Contents() == old(Contents()).(courses := RemoveKey(old(courses), CourseId, id))
      ensures old(Integrity()) ==> Integrity()
    {
      var before := courses;
      courses := RemoveKey(courses, CourseId, id);
      forall i | 0 <= i < |courses| ensures courses[i] in before {
      }
    }

    method AddAnnouncement(info: AnnouncementInfo, now: nat, isoNow: string)
      modifies this
      ensures Contents() == old(Contents()).(
        announcements := [NewAnnouncement(info, now, isoNow)] + old(announcements))
      ensures announcements[0] == NewAnnouncement(info, now, isoNow) && announcements[1..] == old(announcements)
      ensures Integrity() == old(Integrity())
    {
      announcements := [NewAnnouncement(info, now, isoNow)] + announcements;
    }

    method UpdateAttendance(record: AttendanceRecord)
      modifies this
      ensures Contents() == old(Contents()).(attendance := Upsert(old(attendance), record))
      ensures old(KeysDistinct(attendance, Slot)) ==> KeysDistinct(attendance, Slot)
    {
      if KeysDistinct(attendance, Slot) {
        UpsertKeepsSlotsUnique(attendance, record);
      }
      var k := FindIndex(attendance, SameSlotAs(record));
      if k > -1 {
        attendance := attendance[k := record];
      } else {
        attendance := attendance + [record];
      }
    }
  }
}

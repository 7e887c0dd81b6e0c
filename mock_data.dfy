/**
 * The seed snapshot `getInitialData` returns. The people, courses and
 * their references are constants; the announcement and attendance dates
 * are computed from the current date, which is a parameter here: `today`
 * is the local calendar date, `utcToday` the UTC date and `clock` the
 * `THH:MM:SS.sssZ` tail of `new Date().toISOString()`.
 */
module MockData {
  import opened Wrappers
  import opened Seqs
  import opened JsText
  import opened DateUtils
  import opened Types
  import opened Store

  function SeedStudents(): seq<Student> {
    [ Student("s1", AvatarPrefix + "s1", StudentInfo(
        "Nakato", "Grace", "2008-05-15", 1, "Namugga Faith - 0775-123-456", Female,
        "Kampala, Uganda", "Namugga Faith", "0775-123-456", "2024-01-15", None, None,
        SchoolFees(450000, Some(50000), None, 400000, 100000))),
      Student("s2", AvatarPrefix + "s2", StudentInfo(
        "Kato", "Michael", "2007-08-22", 2, "Ssemakula John - 0756-567-890", Male,
        "Entebbe, Uganda", "Ssemakula John", "0756-567-890", "2023-01-15", None, None,
        SchoolFees(450000, Some(50000), Some(300000), 800000, 0))),
      Student("s3", AvatarPrefix + "s3", StudentInfo(
        "Namugga", "Sarah", "2008-02-10", 1, "Mukasa David - 0701-876-543", Female,
        "Jinja, Uganda", "Mukasa David", "0701-876-543", "2024-01-15", None, None,
        SchoolFees(450000, None, None, 450000, 0))),
      Student("s4", AvatarPrefix + "s4", StudentInfo(
        "Sserwadda", "Brian", "2006-11-30", 3, "Nakalembe Rose - 0773-432-109", Male,
        "Mbarara, Uganda", "Nakalembe Rose", "0773-432-109", "2022-01-15", None, None,
        SchoolFees(550000, Some(75000), None, 300000, 325000))),
      Student("s5", AvatarPrefix + "s5", StudentInfo(
        "Nalubega", "Joan", "2007-09-05", 2, "Kiiza Paul - 0782-999-876", Female,
        "Masaka, Uganda", "Kiiza Paul", "0782-999-876", "2023-01-15", None, None,
        SchoolFees(450000, None, Some(300000), 750000, 0)))
    ]
  }

  function SeedTeachers(): seq<Teacher> {
    [ Teacher("t1", AvatarPrefix + "t1", TeacherInfo(
        "Ssemakula", "John", "Mathematics", "j.ssemakula@school.edu.ug", "0774-111-222", Male,
        "1985-03-15", "2015-01-10", "Bachelor of Education", 10, 1200000, "Kampala, Uganda",
        "0774-111-223", "CM85001234567PE", TeacherFullTime, "2015-01-10")),
      Teacher("t2", AvatarPrefix + "t2", TeacherInfo(
        "Namugga", "Faith", "Physics", "f.namugga@school.edu.ug", "0756-333-444", Female,
        "1988-07-22", "2018-08-15", "Bachelor of Science in Education", 7, 1100000, "Entebbe, Uganda",
        "0756-333-445", "CF88001234567PE", TeacherFullTime, "2018-08-15")),
      Teacher("t3", AvatarPrefix + "t3", TeacherInfo(
        "Mukasa", "David", "History", "d.mukasa@school.edu.ug", "0701-555-666", Male,
        "1982-11-08", "2012-02-20", "Master of Education", 13, 1400000, "Jinja, Uganda",
        "0701-555-667", "CM82001234567PE", TeacherFullTime, "2012-02-20"))
    ]
  }

  function SeedStaff(): seq<Staff> {
    [ Staff("st1", AvatarPrefix + "st1", StaffInfo(
        "Nakiwala", "Sarah", Kitchen, "Head Cook", "s.nakiwala@school.edu.ug", "0772-123-456", Female,
        "1980-04-12", "2020-01-15", 700000, "Kawempe, Kampala", "0772-123-457", "CF80001234567PE",
        FullTime, Some(Day), Some("Administration Manager"))),
      Staff("st2", AvatarPrefix + "st2", StaffInfo(
        "Mubiru", "James", Security, "Security Guard", "j.mubiru@school.edu.ug", "0756-789-012", Male,
        "1975-09-20", "2019-06-01", 600000, "Nansana, Kampala", "0756-789-013", "CM75001234567PE",
        FullTime, Some(Night), Some("Security Supervisor"))),
      Staff("st3", AvatarPrefix + "st3", StaffInfo(
        "Nalwoga", "Ruth", Library, "Librarian", "r.nalwoga@school.edu.ug", "0701-345-678", Female,
        "1985-12-08", "2021-03-10", 900000, "Mukono, Uganda", "0701-345-679", "CF85001234567PE",
        FullTime, Some(Day), None)),
      Staff("st4", AvatarPrefix + "st4", StaffInfo(
        "Ssegawa", "Patrick", Maintenance, "Maintenance Technician", "p.ssegawa@school.edu.ug", "0774-901-234", Male,
        "1978-06-15", "2018-09-20", 750000, "Masaka, Uganda", "0774-901-235", "CM78001234567PE",
        FullTime, Some(Day), Some("Facilities Manager"))),
      Staff("st5", AvatarPrefix + "st5", StaffInfo(
        "Namusoke", "Agnes", Cleaning, "Cleaner", "a.namusoke@school.edu.ug", "0756-567-890", Female,
        "1983-02-28", "2022-01-05", 500000, "Ntinda, Kampala", "0756-567-891", "CF83001234567PE",
        PartTime, Some(Day), None)),
      Staff("st6", AvatarPrefix + "st6", StaffInfo(
        "Kiggundu", "Moses", Transport, "School Bus Driver", "m.kiggundu@school.edu.ug", "0772-234-567", Male,
        "1970-11-03", "2017-04-12", 800000, "Mpigi, Uganda", "0772-234-568", "CM70001234567PE",
        FullTime, Some(Day), Some("Transport Coordinator")))
    ]
  }

  function SeedCourses(): seq<Course> {
    [ Course("c1", CourseInfo("S1 Mathematics", Some("t1"), ["s1", "s3"], 1, "Mathematics",
        [ScheduleSlot("Monday", "09:00", "10:30", "Room A1")], None, None)),
      Course("c2", CourseInfo("S2 Physics", Some("t2"), ["s2", "s5"], 2, "Physics",
        [ScheduleSlot("Tuesday", "11:00", "12:30", "Physics Lab")], None, None)),
      Course("c3", CourseInfo("S3 History", Some("t3"), ["s4"], 3, "History",
        [ScheduleSlot("Wednesday", "14:00", "15:30", "Room B2")], None, None))
    ]
  }

  /** `subDays(new Date(), days).toISOString()` for an instant whose UTC date is `utcToday`. */
  function IsoDaysAgo(utcToday: CivilDate, days: nat, clock: string): string
    requires Valid(utcToday)
  {
    FormatYYYYMMDD(SubDays(utcToday, days)) + clock
  }

  function SeedAnnouncements(utcToday: CivilDate, clock: string): seq<Announcement>
    requires Valid(utcToday)
  {
    AnnouncementsDated(IsoDaysAgo(utcToday, 0, clock), IsoDaysAgo(utcToday, 2, clock),
                       IsoDaysAgo(utcToday, 5, clock), IsoDaysAgo(utcToday, 7, clock),
                       SeedAnnouncementInfos())
  }

  /**
   * The title, text, priority and audience of the four seed announcements.
   * Long texts are written as concatenations of short pieces; the strings
   * are the same.
   */
  function SeedAnnouncementInfos(): (r: seq<AnnouncementInfo>)
    ensures |r| == 4
  {
    [ AnnouncementInfo(
        "Welcome Back to " + "Term 1!",
        "We warmly " + "welcome all " + "students back " + "for Term 1, " + "2024. Please " +
        "ensure all " + "school fees are " + "paid by January " + "20th. New " +
        "students should " + "report to the " + "administration " + "office for " +
        "orientation.",
        High, All),
      AnnouncementInfo(
        "Parent-Teacher " + "Conference",
        "The quarterly " + "parent-teacher " + "conference will " + "be held on " +
        "January 25th, " + "2024. Parents " + "are encouraged " + "to attend to " +
        "discuss their " + "children's " + "progress. " + "Appointment " + "slots are " +
        "available at the " + "front office.",
        Medium, Parents),
      AnnouncementInfo(
        "Inter-House " + "Science " + "Competition",
        "The annual " + "inter-house " + "science " + "competition is " + "scheduled for " +
        "February 15th. " + "All S4, S5, and " + "S6 students are " + "encouraged to " +
        "participate. " + "Registration " + "closes on " + "February 1st.",
        Medium, Students),
      AnnouncementInfo(
        "UNEB Examination " + "Timetable",
        "The UNEB " + "examination " + "timetable for " + "2024 has been " +
        "released. S4 and " + "S6 candidates " + "should collect " + "their " +
        "examination " + "cards from the " + "administration " + "office.",
        High, Students)
    ]
  }

  /** The seed announcements `a1`..`a4`, given their date strings and their contents. */
  function AnnouncementsDated(d0: string, d2: string, d5: string, d7: string, infos: seq<AnnouncementInfo>): seq<Announcement>
    requires |infos| == 4
  {
    [ Announcement("a1", d0, infos[0]),
      Announcement("a2", d2, infos[1]),
      Announcement("a3", d5, infos[2]),
      Announcement("a4", d7, infos[3])
    ]
  }

  function SeedAttendance(today: CivilDate): seq<AttendanceRecord>
    requires Valid(today)
  {
    AttendanceOn(FormatYYYYMMDD(today), FormatYYYYMMDD(SubDays(today, 1)))
  }

  /** The five seed attendance marks, given today's and yesterday's date strings. */
  function AttendanceOn(t: string, y: string): seq<AttendanceRecord> {
    [ AttendanceRecord("s1", t, Present),
      AttendanceRecord("s3", t, Present),
      AttendanceRecord("s1", y, Present),
      AttendanceRecord("s3", y, Absent),
      AttendanceRecord("s2", y, Late)
    ]
  }

  /** `getInitialData()`. */
  function InitialData(today: CivilDate, utcToday: CivilDate, clock: string): Snapshot
    requires Valid(today) && Valid(utcToday)
  {
    Snapshot(SeedStudents(), SeedTeachers(), SeedStaff(), SeedCourses(),
             SeedAnnouncements(utcToday, clock), SeedAttendance(today))
  }

  // ---------------------------------------------------------------------
  // What the seed satisfies

  /** Every balance is tuition, transport and boarding less what was paid. */
  lemma SeedBalancesConsistent()
    ensures forall i :: 0 <= i < |SeedStudents()| ==> BalanceConsistent(SeedStudents()[i].info.schoolFees)
  {
    var s := SeedStudents();
    assert BalanceConsistent(s[0].info.schoolFees);
    assert BalanceConsistent(s[1].info.schoolFees);
    assert BalanceConsistent(s[2].info.schoolFees);
    assert BalanceConsistent(s[3].info.schoolFees);
    assert BalanceConsistent(s[4].info.schoolFees);
  }

  /** Every student a course lists exists and is in the course's grade. */
  lemma SeedCourseStudentsInGrade()
    ensures forall i, j :: 0 <= i < |SeedCourses()| && 0 <= j < |SeedCourses()[i].info.studentIds| ==>
      exists k :: 0 <= k < |SeedStudents()| && SeedStudents()[k].id == SeedCourses()[i].info.studentIds[j] &&
                  SeedStudents()[k].info.grade == SeedCourses()[i].info.gradeLevel
  {
    var s, c := SeedStudents(), SeedCourses();
    assert s[0].id == c[0].info.studentIds[0] && s[0].info.grade == c[0].info.gradeLevel;
    assert s[2].id == c[0].info.studentIds[1] && s[2].info.grade == c[0].info.gradeLevel;
    assert s[1].id == c[1].info.studentIds[0] && s[1].info.grade == c[1].info.gradeLevel;
    assert s[4].id == c[1].info.studentIds[1] && s[4].info.grade == c[1].info.gradeLevel;
    assert s[3].id == c[2].info.studentIds[0] && s[3].info.grade == c[2].info.gradeLevel;
  }

  /** Every course's teacher is a seed teacher. */
  lemma SeedCourseTeachersResolve()
    ensures forall i :: 0 <= i < |SeedCourses()| ==>
      SeedCourses()[i].info.teacherId.Some? && HasTeacher(SeedTeachers(), SeedCourses()[i].info.teacherId.value)
  {
    var t, c := SeedTeachers(), SeedCourses();
    assert t[0].id == c[0].info.teacherId.value;
    assert t[1].id == c[1].info.teacherId.value;
    assert t[2].id == c[2].info.teacherId.value;
  }

  /** Today and yesterday render differently. */
  lemma TodayIsNotYesterday(today: CivilDate)
    requires Valid(today)
    ensures FormatYYYYMMDD(today) != FormatYYYYMMDD(SubDays(today, 1))
  {
    if FormatYYYYMMDD(today) == FormatYYYYMMDD(SubDays(today, 1)) {
      FormatInjective(today, SubDays(today, 1));
    }
  }

  /** At most one seed attendance record per student and day, each naming a seed student. */
  lemma SeedAttendanceWellFormed(today: CivilDate)
    requires Valid(today)
    ensures KeysDistinct(SeedAttendance(today), Slot)
    ensures forall i :: 0 <= i < |SeedAttendance(today)| ==> HasStudent(SeedStudents(), SeedAttendance(today)[i].studentId)
  {
    TodayIsNotYesterday(today);
    AttendanceOnWellFormed(FormatYYYYMMDD(today), FormatYYYYMMDD(SubDays(today, 1)));
  }

  lemma AttendanceOnWellFormed(t: string, y: string)
    requires t != y
    ensures KeysDistinct(AttendanceOn(t, y), Slot)
    ensures forall i :: 0 <= i < |AttendanceOn(t, y)| ==> HasStudent(SeedStudents(), AttendanceOn(t, y)[i].studentId)
  {
    var a, s := AttendanceOn(t, y), SeedStudents();
    assert s[0].id == a[0].studentId && s[2].id == a[1].studentId && s[0].id == a[2].studentId;
    assert s[2].id == a[3].studentId && s[1].id == a[4].studentId;
  }

  /** The whole seed is referentially intact. */
  lemma SeedIntegral(today: CivilDate)
    requires Valid(today)
    ensures Integral(SeedStudents(), SeedTeachers(), SeedCourses(), SeedAttendance(today))
  {
    SeedCourseStudentsInGrade();
    SeedCourseTeachersResolve();
    SeedAttendanceWellFormed(today);
  }

  /**
   * Announcements are newest first, as `addAnnouncement`'s prepending keeps
   * them: for four-digit years each date string is strictly greater than
   * the next one.
   */
  lemma SeedAnnouncementsNewestFirst(utcToday: CivilDate, clock: string)
    requires Valid(utcToday) && 1001 <= utcToday.year <= 9999
    ensures var a := SeedAnnouncements(utcToday, clock);
      forall i :: 0 <= i < |a| - 1 ==> Less(a[i + 1].date, a[i].date)
  {
    IsoDaysAgoOrder(utcToday, 0, 2, clock);
    IsoDaysAgoOrder(utcToday, 2, 5, clock);
    IsoDaysAgoOrder(utcToday, 5, 7, clock);
    DatedOrder(IsoDaysAgo(utcToday, 0, clock), IsoDaysAgo(utcToday, 2, clock),
               IsoDaysAgo(utcToday, 5, clock), IsoDaysAgo(utcToday, 7, clock),
               SeedAnnouncementInfos());
  }

  lemma DatedOrder(d0: string, d2: string, d5: string, d7: string, infos: seq<AnnouncementInfo>)
    requires |infos| == 4 && Less(d2, d0) && Less(d5, d2) && Less(d7, d5)
    ensures var a := AnnouncementsDated(d0, d2, d5, d7, infos);
      forall i :: 0 <= i < |a| - 1 ==> Less(a[i + 1].date, a[i].date)
  {
    var a := AnnouncementsDated(d0, d2, d5, d7, infos);
    assert a[0].date == d0 && a[1].date == d2 && a[2].date == d5 && a[3].date == d7;
  }

  lemma IsoDaysAgoOrder(utcToday: CivilDate, m: nat, n: nat, clock: string)
    requires Valid(utcToday) && 1001 <= utcToday.year <= 9999 && m < n <= 7
    ensures Less(IsoDaysAgo(utcToday, n, clock), IsoDaysAgo(utcToday, m, clock))
  {
    var later, earlier := SubDays(utcToday, m), SubDays(utcToday, n);
    SubDaysStrictlyEarlier(utcToday, m, n);
    SubDaysYearBound(utcToday, n);
    SubDaysYearBound(utcToday, m);
    FormatLength(later);
    FormatLength(earlier);
    FormatOrder(earlier, later);
    LessConcat(FormatYYYYMMDD(earlier), clock, FormatYYYYMMDD(later), clock);
  }

  /** A week back from a date in 1001..9999 is still in a four-digit year. */
  lemma {:induction false} SubDaysYearBound(d: CivilDate, n: nat)
    requires Valid(d) && 1001 <= d.year <= 9999 && n <= 7
    ensures d.year - 1 <= SubDays(d, n).year <= d.year
    decreases n
  {
    if n > 0 {
      SubDaysYearBound(d, n - 1);
      var p := SubDays(d, n - 1);
      if p.year == d.year - 1 {
        SubDaysLateDecember(d, n - 1);
      }
    }
  }

  /** Once a backward walk of at most a week has left the year, it is in late December. */
  lemma {:induction false} SubDaysLateDecember(d: CivilDate, n: nat)
    requires Valid(d) && n <= 7 && SubDays(d, n).year < d.year
    ensures SubDays(d, n).month == 12 && SubDays(d, n).day >= 31 - n
    decreases n
  {
    if n > 0 && SubDays(d, n - 1).year < d.year {
      SubDaysLateDecember(d, n - 1);
    }
  }

  /** Ids are unique in every collection, and every avatar is the prefix followed by the id. */
  lemma SeedStudentIdsAndAvatars()
    ensures KeysDistinct(SeedStudents(), StudentId)
    ensures forall i :: 0 <= i < |SeedStudents()| ==> SeedStudents()[i].avatarUrl == AvatarPrefix + SeedStudents()[i].id
  {
  }

  lemma SeedTeacherIdsAndAvatars()
    ensures KeysDistinct(SeedTeachers(), TeacherId)
    ensures forall i :: 0 <= i < |SeedTeachers()| ==> SeedTeachers()[i].avatarUrl == AvatarPrefix + SeedTeachers()[i].id
  {
  }

  lemma SeedStaffIdsAndAvatars()
    ensures KeysDistinct(SeedStaff(), StaffId)
    ensures forall i :: 0 <= i < |SeedStaff()| ==> SeedStaff()[i].avatarUrl == AvatarPrefix + SeedStaff()[i].id
  {
  }

  lemma SeedCourseIdsDistinct()
    ensures KeysDistinct(SeedCourses(), CourseId)
  {
  }

  lemma SeedAnnouncementIdsDistinct(utcToday: CivilDate, clock: string)
    requires Valid(utcToday)
    ensures KeysDistinct(SeedAnnouncements(utcToday, clock), AnnouncementId)
  {
    DatedIdsDistinct(IsoDaysAgo(utcToday, 0, clock), IsoDaysAgo(utcToday, 2, clock),
                     IsoDaysAgo(utcToday, 5, clock), IsoDaysAgo(utcToday, 7, clock),
                     SeedAnnouncementInfos());
  }

  lemma DatedIdsDistinct(d0: string, d2: string, d5: string, d7: string, infos: seq<AnnouncementInfo>)
    requires |infos| == 4
    ensures KeysDistinct(AnnouncementsDated(d0, d2, d5, d7, infos), AnnouncementId)
  {
    var a := AnnouncementsDated(d0, d2, d5, d7, infos);
    assert a[0].id == "a1" && a[1].id == "a2" && a[2].id == "a3" && a[3].id == "a4";
  }
}

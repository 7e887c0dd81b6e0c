/**
 * The records the school dashboard keeps. An entity whose id (and avatar)
 * the store assigns is split into that identity and the rest of its fields,
 * which is what the add handlers receive (`Omit<Student, 'id' | 'avatarUrl'>`
 * and so on). Optional fields are `Option`s; string-literal unions are
 * enumerations.
 */
module Types {
  import opened Wrappers

  datatype Gender = Male | Female

  /** The strings `'male' | 'female'` the records and the forms hold. */
  function GenderValue(g: Gender): (s: string)
    ensures s in ["male", "female"]
  {
    match g
    case Male => "male"
    case Female => "female"
  }

  /** The gender a form's select chose. */
  function GenderOf(s: string): (g: Gender)
    requires s in ["male", "female"]
    ensures GenderValue(g) == s
  {
    if s == "male" then Male else Female
  }

  /** Reading back the string a gender is stored as gives the gender. */
  lemma GenderRoundTrip(g: Gender)
    ensures GenderOf(GenderValue(g)) == g
  {
  }

  /** A student's fee account; an absent transport or boarding fee counts as 0. */
  datatype SchoolFees = SchoolFees(
    tuition: int,
    transport: Option<int>,
    boarding: Option<int>,
    totalPaid: int,
    balance: int)

  /** The balance the fee account should carry. */
  function Owed(f: SchoolFees): int {
    f.tuition + f.transport.GetOr(0) + f.boarding.GetOr(0) - f.totalPaid
  }

  predicate BalanceConsistent(f: SchoolFees) {
    f.balance == Owed(f)
  }

  datatype StudentInfo = StudentInfo(
    firstName: string,
    lastName: string,
    dateOfBirth: string,
    grade: int,
    emergencyContact: string,
    gender: Gender,
    address: string,
    parentName: string,
    parentPhone: string,
    admissionDate: string,
    bloodGroup: Option<string>,
    medicalConditions: Option<string>,
    schoolFees: SchoolFees)

  datatype Student = Student(id: string, avatarUrl: string, info: StudentInfo)

  datatype TeacherEmployment = TeacherFullTime | TeacherPartTime | TeacherContract | Volunteer

  datatype TeacherInfo = TeacherInfo(
    firstName: string,
    lastName: string,
    subject: string,
    email: string,
    phone: string,
    gender: Gender,
    dateOfBirth: string,
    hireDate: string,
    qualification: string,
    experience: int,
    salary: int,
    address: string,
    emergencyContact: string,
    nationalId: string,
    employmentType: TeacherEmployment,
    dateOfJoining: string)

  datatype Teacher = Teacher(id: string, avatarUrl: string, info: TeacherInfo)

  datatype Department =
    Kitchen | Security | Library | Maintenance | Administration | Cleaning | Transport | Health

  /** Every department, in the order the staff screen lists them. */
  const Departments: seq<Department> :=
    [Kitchen, Security, Library, Maintenance, Administration, Cleaning, Transport, Health]

  lemma DepartmentsComplete(d: Department)
    ensures d in Departments
  {
  }

  datatype StaffEmployment = FullTime | PartTime | Contract

  datatype Shift = Day | Night | Both

  datatype StaffInfo = StaffInfo(
    firstName: string,
    lastName: string,
    department: Department,
    position: string,
    email: string,
    phone: string,
    gender: Gender,
    dateOfBirth: string,
    hireDate: string,
    salary: int,
    address: string,
    emergencyContact: string,
    nationalId: string,
    employmentType: StaffEmployment,
    shift: Option<Shift>,
    supervisor: Option<string>)

  datatype Staff = Staff(id: string, avatarUrl: string, info: StaffInfo)

  datatype ScheduleSlot = ScheduleSlot(day: string, startTime: string, endTime: string, classroom: string)

  /** A course; `teacherId` is `null` (`None`) when no teacher is assigned. */
  datatype CourseInfo = CourseInfo(
    name: string,
    teacherId: Option<string>,
    studentIds: seq<string>,
    gradeLevel: int,
    subject: string,
    schedule: seq<ScheduleSlot>,
    syllabus: Option<string>,
    textbooks: Option<seq<string>>)

  datatype Course = Course(id: string, info: CourseInfo)

  datatype Priority = Low | Medium | High

  datatype Audience = All | Students | Teachers | Parents

  datatype AnnouncementInfo = AnnouncementInfo(
    title: string,
    content: string,
    priority: Priority,
    targetAudience: Audience)

  datatype Announcement = Announcement(id: string, date: string, info: AnnouncementInfo)

  datatype AttendanceStatus = Present | Absent | Late

  /** One attendance mark; `date` is a `YYYY-MM-DD` string. */
  datatype AttendanceRecord = AttendanceRecord(studentId: string, date: string, status: AttendanceStatus)

  datatype Exam = Exam(
    id: string,
    name: string,
    subject: string,
    gradeLevel: int,
    date: string,
    duration: int,
    totalMarks: int,
    passingMarks: int,
    venue: string,
    instructions: Option<string>)

  datatype ExamResult = ExamResult(
    id: string,
    examId: string,
    studentId: string,
    marksObtained: int,
    grade: string,
    remarks: Option<string>)

  datatype RecordType = Income | Expense

  datatype PaymentMethod = Cash | BankTransfer | MobileMoney | Cheque

  datatype FinanceRecord = FinanceRecord(
    id: string,
    recordType: RecordType,
    category: string,
    description: string,
    amount: int,
    date: string,
    paymentMethod: PaymentMethod,
    reference: Option<string>,
    studentId: Option<string>)
}

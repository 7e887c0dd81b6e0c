/**
 * The teacher form: the checks of its name, email, national id,
 * experience and salary fields, the data it opens with, and the record its
 * submit hands on.
 */
module TeacherModal {
  import opened Wrappers
  import opened JsText
  import opened Types
  import opened FieldPatterns

  /** The name `validation`: at least two characters, ASCII letters and whitespace only. */
  function NameError(kind: string, value: string): (r: Option<string>)
    ensures r.None? <==>
      |value| >= 2 && forall k :: 0 <= k < |value| ==> IsAsciiLetter(value[k]) || IsJsWhitespace(value[k])
    ensures |value| < 2 ==> r == Some(TooShort(kind))
    ensures |value| >= 2 && r.Some? ==> r == Some(NotOnlyLetters(kind))
  {
    if |value| < 2 then Some(TooShort(kind))
    else if !OnlyLettersAndSpaces(value) then Some(NotOnlyLetters(kind))
    else None
  }

  /** Unlike the student form, a teacher's name may hold spaces; two spaces pass too. */
  lemma SpacedNamesAccepted(kind: string, a: string, b: string)
    requires OnlyLetters(a) && OnlyLetters(b)
    ensures NameError(kind, a + " " + b).None?
    ensures NameError(kind, "  ").None?
  {
    var s := a + " " + b;
    assert forall k :: 0 <= k < |s| ==> k < |a| ==> s[k] == a[k];
    assert forall k :: 0 <= k < |s| ==> k > |a| ==> s[k] == b[k - |a| - 1];
  }

  // Messages are written as concatenations of a few words each: the
  // verifier unfolds a literal character by character, and short pieces keep
  // that cheap.
  const EmailMessage := "Please enter a " + "valid email " + "address"

  /** The email `validation`. */
  function EmailError(value: string): (r: Option<string>)
    ensures r.None? <==> ValidEmail(value)
    ensures r.Some? ==> r.value == EmailMessage
  {
    EmailPatternIff(value);
    if !EmailPattern(value) then Some(EmailMessage) else None
  }

  const IdLengthMessage := "National ID " + "must be 14 " + "characters"
  const IdFormatMessage := "Invalid " + "National ID " + "format (e.g., " + "CF1234567890123)"

  /** The national id `validation`: the length first, then the pattern. */
  function NationalIdError(value: string): (r: Option<string>)
    ensures r.None? <==> NationalIdPattern(value)
    ensures |value| != 14 ==> r == Some(IdLengthMessage)
    ensures |value| == 14 && r.Some? ==> r == Some(IdFormatMessage)
  {
    if |value| != 14 then Some(IdLengthMessage)
    else if !NationalIdPattern(value) then Some(IdFormatMessage)
    else None
  }

  /** The example the field shows, `CF1234567890123`, has 15 characters and is refused by the field it stands for. */
  lemma PlaceholderIdRefused()
    ensures NationalIdError("CF1234567890123") == Some(IdLengthMessage)
  {
  }

  /** An id of two capitals and twelve digits is accepted. */
  lemma WellFormedIdAccepted(a: char, b: char, digits: string)
    requires IsAsciiUpper(a) && IsAsciiUpper(b) && |digits| == 12 && AllDigits(digits)
    ensures NationalIdError([a, b] + digits).None?
  {
    var s := [a, b] + digits;
    assert forall k :: 2 <= k < 14 ==> s[k] == digits[k - 2];
  }

  const ExperienceNaN := "Experience must " + "be a valid " + "number"
  const ExperienceTooHigh := "Experience " + "cannot exceed " + "50 years"

  /** The experience `validation` on `parseInt(value)`. */
  function ExperienceError(value: string): (r: Option<string>)
    ensures r.None? <==> ParseInt(value).Some? && 0 <= ParseInt(value).value <= 50
    ensures ParseInt(value).None? || ParseInt(value).value < 0 ==> r == Some(ExperienceNaN)
    ensures ParseInt(value).Some? && ParseInt(value).value > 50 ==> r == Some(ExperienceTooHigh)
  {
    match ParseInt(value)
    case None => Some(ExperienceNaN)
    case Some(n) =>
      if n < 0 then Some(ExperienceNaN)
      else if n > 50 then Some(ExperienceTooHigh)
      else None
  }

  const SalaryNaN := "Salary must be " + "a valid amount"
  const SalaryTooLow := "Salary should " + "be at least " + "UGX 200,000"
  const SalaryTooHigh := "Salary cannot " + "exceed UGX " + "5,000,000"

  /** The salary `validation`: not a number or negative, below the floor, above the ceiling. */
  function SalaryError(value: string): (r: Option<string>)
    ensures r.None? <==> ParseInt(value).Some? && 200000 <= ParseInt(value).value <= 5000000
    ensures ParseInt(value).None? || ParseInt(value).value < 0 ==> r == Some(SalaryNaN)
    ensures ParseInt(value).Some? && 0 <= ParseInt(value).value < 200000 ==> r == Some(SalaryTooLow)
    ensures ParseInt(value).Some? && ParseInt(value).value > 5000000 ==> r == Some(SalaryTooHigh)
  {
    match ParseInt(value)
    case None => Some(SalaryNaN)
    case Some(n) =>
      if n < 0 then Some(SalaryNaN)
      else if n < 200000 then Some(SalaryTooLow)
      else if n > 5000000 then Some(SalaryTooHigh)
      else None
  }

  /** A number in range, written out as the edit form writes it, passes its check. */
  lemma RenderedNumbersAccepted(experience: int, salary: int)
    requires 0 <= experience <= 50 && 200000 <= salary <= 5000000
    ensures ExperienceError(IntToString(experience)).None?
    ensures SalaryError(IntToString(salary)).None?
  {
    IntToStringRoundTrip(experience);
    IntToStringRoundTrip(salary);
  }

  /** The salary a new teacher's form starts with. */
  const DefaultSalary := "800000"

  /** The default salary passes the salary check. */
  lemma DefaultSalaryAccepted()
    ensures SalaryError(DefaultSalary) == None
  {
    RenderedNumbersAccepted(0, 800000);
    DefaultSalaryRendering();
  }

  lemma DefaultSalaryRendering()
    ensures IntToString(800000) == DefaultSalary
  {
    assert NatToString(8) == "8";
    assert NatToString(80) == "80";
    assert NatToString(800) == "800";
    assert NatToString(8000) == "8000";
    assert NatToString(80000) == "80000";
    assert NatToString(800000) == "800000";
  }

  /** The employment select's option values. */
  const EmploymentValues: seq<string> := ["Full-time", "Part-time", "Contract", "Volunteer"]

  function EmploymentValue(e: TeacherEmployment): (s: string)
    ensures s in EmploymentValues
  {
    match e
    case TeacherFullTime => "Full-time"
    case TeacherPartTime => "Part-time"
    case TeacherContract => "Contract"
    case Volunteer => "Volunteer"
  }

  function EmploymentOf(s: string): (e: TeacherEmployment)
    requires s in EmploymentValues
    ensures EmploymentValue(e) == s
  {
    if s == "Full-time" then TeacherFullTime
    else if s == "Part-time" then TeacherPartTime
    else if s == "Contract" then TeacherContract
    else Volunteer
  }

  /** What the form holds: every input keeps a string. */
  datatype TeacherForm = TeacherForm(
    firstName: string,
    lastName: string,
    email: string,
    phone: string,
    subject: string,
    gender: string,
    dateOfBirth: string,
    nationalId: string,
    qualification: string,
    experience: string,
    employmentType: string,
    dateOfJoining: string,
    address: string,
    emergencyContact: string,
    salary: string)

  /** A new teacher's form: only the salary is filled in; an absent entry shows as `''`. */
  function NewTeacherForm(): (r: TeacherForm)
    ensures r.salary == DefaultSalary && r.firstName == "" && r.experience == ""
  {
    TeacherForm("", "", "", "", "", "", "", "", "", "", "", "", "", "", DefaultSalary)
  }

  /** The date the edit form shows as the joining date: `dateOfJoining || hireDate`. */
  function JoiningShown(t: TeacherInfo): (d: string)
    ensures t.dateOfJoining != "" ==> d == t.dateOfJoining
    ensures t.dateOfJoining == "" ==> d == t.hireDate
  {
    if t.dateOfJoining != "" then t.dateOfJoining else t.hireDate
  }

  /** `initialData` when editing. */
  function InitialData(t: Teacher): (r: TeacherForm)
    ensures r.experience == IntToString(t.info.experience) && r.salary == IntToString(t.info.salary)
    ensures r.dateOfJoining == JoiningShown(t.info)
  {
    var i := t.info;
    TeacherForm(i.firstName, i.lastName, i.email, i.phone, i.subject, GenderValue(i.gender), i.dateOfBirth,
                i.nationalId, i.qualification, IntToString(i.experience), EmploymentValue(i.employmentType),
                JoiningShown(i), i.address, i.emergencyContact, IntToString(i.salary))
  }

  /**
   * `handleSubmit`: the record handed to `onSubmit`, its hire date the
   * joining date. The form only submits after validation, so the selects
   * hold options and experience and salary pass their checks.
   */
  function BuildTeacher(data: TeacherForm): (r: TeacherInfo)
    requires data.gender in ["male", "female"] && data.employmentType in EmploymentValues
    requires ExperienceError(data.experience).None? && SalaryError(data.salary).None?
    ensures r.hireDate == data.dateOfJoining && r.dateOfJoining == data.dateOfJoining
    ensures Some(r.experience) == ParseInt(data.experience) && 0 <= r.experience <= 50
    ensures Some(r.salary) == ParseInt(data.salary) && 200000 <= r.salary <= 5000000
    ensures GenderValue(r.gender) == data.gender && EmploymentValue(r.employmentType) == data.employmentType
    ensures r.firstName == data.firstName && r.lastName == data.lastName && r.email == data.email
    ensures r.phone == data.phone && r.nationalId == data.nationalId && r.emergencyContact == data.emergencyContact
    ensures r.subject == data.subject && r.dateOfBirth == data.dateOfBirth
    ensures r.qualification == data.qualification && r.address == data.address
  {
    TeacherInfo(data.firstName, data.lastName, data.subject, data.email, data.phone, GenderOf(data.gender),
                data.dateOfBirth, data.dateOfJoining, data.qualification, ParseInt(data.experience).value,
                ParseInt(data.salary).value, data.address, data.emergencyContact, data.nationalId,
                EmploymentOf(data.employmentType), data.dateOfJoining)
  }

  /**
   * Submitting the edit form unchanged gives the teacher back, except that
   * the joining date and the hire date both become the date shown.
   */
  lemma EditUnchangedRoundTrip(t: Teacher)
    requires 0 <= t.info.experience <= 50 && 200000 <= t.info.salary <= 5000000
    ensures ExperienceError(InitialData(t).experience).None? && SalaryError(InitialData(t).salary).None?
    ensures BuildTeacher(InitialData(t)) ==
      t.info.(hireDate := JoiningShown(t.info), dateOfJoining := JoiningShown(t.info))
  {
    RenderedNumbersAccepted(t.info.experience, t.info.salary);
    var i := t.info;
    var r := BuildTeacher(InitialData(t));
    IntToStringRoundTrip(i.experience);
    IntToStringRoundTrip(i.salary);
    GenderRoundTrip(i.gender);
    EmploymentRoundTrip(i.employmentType);
    assert r.experience == i.experience && r.salary == i.salary;
  }

  lemma EmploymentRoundTrip(e: TeacherEmployment)
    ensures EmploymentOf(EmploymentValue(e)) == e
  {
  }
}

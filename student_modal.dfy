/**
 * The student form: the checks of its name and phone fields, the data it
 * opens with when editing, and the record its submit hands on.
 */
module StudentModal {
  import opened Wrappers
  import opened JsText
  import opened Types
  import opened FieldPatterns
  import FormBuilder

  /** The name `validation`: at least two characters, and ASCII letters only. */
  function NameError(kind: string, value: string): (r: Option<string>)
    ensures r.None? <==> |value| >= 2 && forall k :: 0 <= k < |value| ==> IsAsciiLetter(value[k])
    ensures |value| < 2 ==> r == Some(TooShort(kind))
    ensures |value| >= 2 && r.Some? ==> r == Some(NotOnlyLetters(kind))
  {
    if |value| < 2 then Some(TooShort(kind))
    else if !OnlyLetters(value) then Some(NotOnlyLetters(kind))
    else None
  }

  /** A name with a space or a hyphen in it is refused. */
  lemma NamesWithSeparatorsRefused(kind: string, a: string, b: string)
    requires |a| >= 1 && |b| >= 1
    ensures NameError(kind, a + " " + b) == Some(NotOnlyLetters(kind))
    ensures NameError(kind, a + "-" + b) == Some(NotOnlyLetters(kind))
  {
    assert (a + " " + b)[|a|] == ' ';
    assert (a + "-" + b)[|a|] == '-';
  }

  /** A form field's `validation` that reads the value as the string the input holds. */
  function OnText(check: string -> Option<string>): FormBuilder.Value -> Option<string> {
    (v: FormBuilder.Value) => if v.Text? then check(v.s) else None
  }

  function FirstNameCheck(): string -> Option<string> {
    (s: string) => NameError("First name", s)
  }

  /** The `firstName` entry of `formFields`. */
  function FirstNameField(): FormBuilder.FormField {
    FormBuilder.FormField("firstName", FormBuilder.TextInput, "First Name", true, Some(OnText(FirstNameCheck())))
  }

  /**
   * What validation reports for the first name: a blank entry is required,
   * anything else gets the name check's verdict.
   */
  lemma FirstNameFieldError(s: string)
    ensures Trim(s) == "" ==> FormBuilder.FieldError(FirstNameField(), FormBuilder.Text(s)) == Some("First Name" + " is required")
    ensures Trim(s) != "" ==> FormBuilder.FieldError(FirstNameField(), FormBuilder.Text(s)) == NameError("First name", s)
  {
    var field := FirstNameField();
    assert field.validation.value(FormBuilder.Text(s)) == NameError("First name", s);
  }

  /** The grade select's option values. */
  const GradeValues: seq<string> := ["1", "2", "3", "4", "5", "6"]

  /** `parseInt(data.grade)` on a chosen option is the grade it names. */
  lemma GradeParses(g: string)
    requires g in GradeValues
    ensures ParseInt(g).Some? && 1 <= ParseInt(g).value <= 6
    ensures IntToString(ParseInt(g).value) == g
  {
    var n: nat := if g == "1" then 1 else if g == "2" then 2 else if g == "3" then 3
      else if g == "4" then 4 else if g == "5" then 5 else 6;
    assert g == NatToString(n);
    NatToStringRoundTrip(n);
  }

  /** The value a grade shows as in the form, `student.grade.toString()`, is one of the options. */
  lemma GradeShown(n: int)
    requires 1 <= n <= 6
    ensures IntToString(n) in GradeValues
  {
  }

  /** What the form holds: every input keeps a string. */
  datatype StudentForm = StudentForm(
    firstName: string,
    lastName: string,
    dateOfBirth: string,
    gender: string,
    grade: string,
    address: string,
    parentName: string,
    parentPhone: string,
    emergencyContact: string,
    bloodGroup: string,
    medicalConditions: string)

  /** `initialData` when editing: the student's fields, the optional ones as `''` when absent. */
  function InitialData(s: Student): (r: StudentForm)
    ensures r.grade == IntToString(s.info.grade)
    ensures r.bloodGroup == s.info.bloodGroup.GetOr("") && r.medicalConditions == s.info.medicalConditions.GetOr("")
  {
    var i := s.info;
    StudentForm(i.firstName, i.lastName, i.dateOfBirth, GenderValue(i.gender), IntToString(i.grade),
                i.address, i.parentName, i.parentPhone, i.emergencyContact,
                i.bloodGroup.GetOr(""), i.medicalConditions.GetOr(""))
  }

  /** The fee account of a new student, in UGX per term. */
  function DefaultFees(): (f: SchoolFees)
    ensures BalanceConsistent(f) && f.totalPaid == 0
  {
    SchoolFees(500000, Some(150000), Some(300000), 0, 950000)
  }

  /** `data.x || undefined`: an empty entry is no value. */
  function Optional(entry: string): (r: Option<string>)
    ensures r.None? <==> entry == ""
    ensures r.Some? ==> r.value == entry
  {
    if entry == "" then None else Some(entry)
  }

  /**
   * `handleSubmit`: the record handed to `onSubmit`. `today` is the date
   * `new Date()` gives. The form only submits after validation, so the
   * gender and the grade are among their selects' options.
   */
  function BuildStudent(data: StudentForm, editing: Option<Student>, today: string): (r: StudentInfo)
    requires data.gender in ["male", "female"] && data.grade in GradeValues
    ensures 1 <= r.grade <= 6 && IntToString(r.grade) == data.grade
    ensures GenderValue(r.gender) == data.gender
    ensures r.bloodGroup == Optional(data.bloodGroup) && r.medicalConditions == Optional(data.medicalConditions)
    ensures editing.None? ==> r.schoolFees == DefaultFees() && r.admissionDate == today
    ensures editing.Some? ==> r.schoolFees == editing.value.info.schoolFees
    ensures editing.Some? && editing.value.info.admissionDate != "" ==> r.admissionDate == editing.value.info.admissionDate
    ensures editing.Some? && editing.value.info.admissionDate == "" ==> r.admissionDate == today
    ensures r.firstName == data.firstName && r.lastName == data.lastName && r.parentPhone == data.parentPhone
    ensures r.emergencyContact == data.emergencyContact && r.address == data.address && r.parentName == data.parentName
    ensures r.dateOfBirth == data.dateOfBirth
  {
    GradeParses(data.grade);
    var admissionDate := if editing.Some? && editing.value.info.admissionDate != "" then editing.value.info.admissionDate else today;
    var fees := if editing.Some? then editing.value.info.schoolFees else DefaultFees();
    StudentInfo(data.firstName, data.lastName, data.dateOfBirth, ParseInt(data.grade).value,
                data.emergencyContact, GenderOf(data.gender), data.address, data.parentName,
                data.parentPhone, admissionDate, Optional(data.bloodGroup), Optional(data.medicalConditions),
                fees)
  }

  /**
   * Submitting the edit form unchanged gives the student back, as long as
   * the grade is one the select offers and no optional field holds `''`.
   */
  lemma EditUnchangedRoundTrip(s: Student, today: string)
    requires 1 <= s.info.grade <= 6
    requires s.info.bloodGroup != Some("") && s.info.medicalConditions != Some("")
    requires s.info.admissionDate != ""
    ensures InitialData(s).grade in GradeValues
    ensures BuildStudent(InitialData(s), Some(s), today) == s.info
  {
    GradeShown(s.info.grade);
    var r := BuildStudent(InitialData(s), Some(s), today);
    IntToStringRoundTrip(s.info.grade);
    IntToStringRoundTrip(r.grade);
    GenderRoundTrip(s.info.gender);
  }
}

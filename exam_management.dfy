/**
 * The examination screen: the letter-grade cascade, the exam counters, the
 * result rows joined with exam and student names, and how each input of
 * the exam form changes the draft.
 */
module ExamManagement {
  import opened Wrappers
  import opened Seqs
  import opened JsText
  import opened Percentages
  import opened Types

  /** The letters `gradeCalculation` can return. */
  const Letters: seq<string> := ["A", "B+", "B", "C+", "C", "D", "F"]

  /**
   * `gradeCalculation`: the percentage `(marks / totalMarks) * 100` against
   * the thresholds 90, 80, 70, 60, 50 and 40. A zero total gives a
   * non-finite percentage: `Infinity` passes every threshold, `NaN` none.
   */
  function GradeCalculation(marks: int, totalMarks: int): (r: string)
    ensures r in Letters
  {
    var p := PercentOf(marks, totalMarks);
    if AtLeast(p, 90) then "A"
    else if AtLeast(p, 80) then "B+"
    else if AtLeast(p, 70) then "B"
    else if AtLeast(p, 60) then "C+"
    else if AtLeast(p, 50) then "C"
    else if AtLeast(p, 40) then "D"
    else "F"
  }

  /** The position of a letter from the bottom: F is 0, A is 6. */
  function Rank(letter: string): int {
    if letter == "A" then 6
    else if letter == "B+" then 5
    else if letter == "B" then 4
    else if letter == "C+" then 3
    else if letter == "C" then 2
    else if letter == "D" then 1
    else 0
  }

  /** The lowest percentage a letter needs; F needs nothing. */
  function Threshold(rank: int): int {
    if rank <= 0 then 0 else 30 + 10 * rank
  }

  /**
   * With a positive total, the letter is the band the cross-multiplied
   * percentage falls in: at least the letter's threshold, below the next one.
   */
  lemma GradeBands(marks: int, totalMarks: int)
    requires totalMarks >= 1
    ensures var k := Rank(GradeCalculation(marks, totalMarks));
      0 <= k <= 6 &&
      (k > 0 ==> 100 * marks >= Threshold(k) * totalMarks) &&
      (k < 6 ==> 100 * marks < Threshold(k + 1) * totalMarks)
  {
    forall t | t in [40, 50, 60, 70, 80, 90]
      ensures AtLeast(PercentOf(marks, totalMarks), t) <==> 100 * marks >= t * totalMarks
    {
      AtLeastCrossMultiply(marks, totalMarks, t);
    }
  }

  /** The top and bottom of the scale: full marks give A and no marks give F. */
  lemma FullAndZeroMarks(totalMarks: int)
    requires totalMarks >= 1
    ensures GradeCalculation(totalMarks, totalMarks) == "A"
    ensures GradeCalculation(0, totalMarks) == "F"
  {
    AtLeastCrossMultiply(totalMarks, totalMarks, 90);
    AtLeastCrossMultiply(0, totalMarks, 40);
  }

  /** For a fixed total, more marks never give a lower letter. */
  lemma GradeMonotone(marks1: int, marks2: int, totalMarks: int)
    requires marks1 <= marks2 && totalMarks >= 1
    ensures Rank(GradeCalculation(marks1, totalMarks)) <= Rank(GradeCalculation(marks2, totalMarks))
  {
    GradeBands(marks1, totalMarks);
    GradeBands(marks2, totalMarks);
    var k1 := Rank(GradeCalculation(marks1, totalMarks));
    var k2 := Rank(GradeCalculation(marks2, totalMarks));
    if k2 < k1 {
      assert Threshold(k2 + 1) <= Threshold(k1);
      assert 100 * marks2 < Threshold(k1) * totalMarks by {
        MulLe(Threshold(k2 + 1), Threshold(k1), totalMarks);
      }
    }
  }

  /**
   * `new Date(exam.date) > new Date()`: the date string read as an instant
   * by the platform's date parser, `None` for an invalid date (`NaN`).
   */
  predicate IsUpcoming(instant: string -> Option<int>, now: int, e: Exam) {
    instant(e.date).Some? && instant(e.date).value > now
  }

  /** `new Date(exam.date) <= new Date()`. */
  predicate IsCompleted(instant: string -> Option<int>, now: int, e: Exam) {
    instant(e.date).Some? && instant(e.date).value <= now
  }

  predicate HasInvalidDate(instant: string -> Option<int>, e: Exam) {
    instant(e.date).None?
  }

  function Upcoming(instant: string -> Option<int>, now: int): Exam -> bool {
    (e: Exam) => IsUpcoming(instant, now, e)
  }

  function Completed(instant: string -> Option<int>, now: int): Exam -> bool {
    (e: Exam) => IsCompleted(instant, now, e)
  }

  function InvalidDate(instant: string -> Option<int>): Exam -> bool {
    (e: Exam) => HasInvalidDate(instant, e)
  }

  datatype ExamStats = ExamStats(totalExams: nat, upcomingExams: nat, completedExams: nat, totalStudentResults: nat)

  /** `examStats`, with the current instant as a parameter. */
  function ComputeExamStats(exams: seq<Exam>, examResults: seq<ExamResult>,
                            instant: string -> Option<int>, now: int): (s: ExamStats)
    ensures s.totalExams == |exams| && s.totalStudentResults == |examResults|
    ensures s.upcomingExams == Count(exams, Upcoming(instant, now))
    ensures s.completedExams == Count(exams, Completed(instant, now))
  {
    ExamStats(|exams|, Count(exams, Upcoming(instant, now)), Count(exams, Completed(instant, now)), |examResults|)
  }

  /**
   * Upcoming and completed exams together are all exams except those whose
   * date does not parse, which the two counters both skip.
   */
  lemma UpcomingPlusCompleted(exams: seq<Exam>, examResults: seq<ExamResult>,
                              instant: string -> Option<int>, now: int)
    ensures var s := ComputeExamStats(exams, examResults, instant, now);
      s.upcomingExams + s.completedExams + Count(exams, InvalidDate(instant)) == s.totalExams
  {
    ThreeWaySplit(exams, instant, now);
  }

  /** When every exam date parses, the two counters add up to the total. */
  lemma UpcomingPlusCompletedIsTotal(exams: seq<Exam>, examResults: seq<ExamResult>,
                                     instant: string -> Option<int>, now: int)
    requires forall i :: 0 <= i < |exams| ==> instant(exams[i].date).Some?
    ensures var s := ComputeExamStats(exams, examResults, instant, now);
      s.upcomingExams + s.completedExams == s.totalExams
  {
    UpcomingPlusCompleted(exams, examResults, instant, now);
    NoInvalidDates(exams, instant);
  }

  lemma {:induction false} ThreeWaySplit(exams: seq<Exam>, instant: string -> Option<int>, now: int)
    ensures Count(exams, Upcoming(instant, now)) + Count(exams, Completed(instant, now)) +
            Count(exams, InvalidDate(instant)) == |exams|
    decreases |exams|
  {
    if |exams| > 0 {
      var front, e := exams[..|exams| - 1], exams[|exams| - 1];
      ThreeWaySplit(front, instant, now);
      assert exams == front + [e];
      CountSnoc(front, e, Upcoming(instant, now));
      CountSnoc(front, e, Completed(instant, now));
      CountSnoc(front, e, InvalidDate(instant));
    }
  }

  lemma {:induction false} NoInvalidDates(exams: seq<Exam>, instant: string -> Option<int>)
    requires forall i :: 0 <= i < |exams| ==> instant(exams[i].date).Some?
    ensures Count(exams, InvalidDate(instant)) == 0
    decreases |exams|
  {
    if |exams| > 0 {
      var front, e := exams[..|exams| - 1], exams[|exams| - 1];
      NoInvalidDates(front, instant);
      assert exams == front + [e];
      CountSnoc(front, e, InvalidDate(instant));
    }
  }

  /** A result row with the joined names; `percentage` is `None` where the screen shows `'0'`. */
  datatype ResultDetails = ResultDetails(result: ExamResult, examName: string, studentName: string,
                                         percentage: Option<Percent>)

  function ExamIdIs(id: string): Exam -> bool {
    (e: Exam) => e.id == id
  }

  function StudentIdIs(id: string): Student -> bool {
    (s: Student) => s.id == id
  }

  /** The body of the `map` in `examResultsWithDetails`. */
  function Detail(exams: seq<Exam>, students: seq<Student>, result: ExamResult): (d: ResultDetails)
    ensures d.result == result
    ensures match Find(exams, ExamIdIs(result.examId))
      case None => d.examName == "Unknown Exam" && d.percentage.None?
      case Some(e) =>
        d.examName == (if e.name == "" then "Unknown Exam" else e.name) &&
        d.percentage == Some(PercentOf(result.marksObtained, e.totalMarks))
    ensures match Find(students, StudentIdIs(result.studentId))
      case None => d.studentName == "Unknown Student"
      case Some(s) => d.studentName == s.info.firstName + " " + s.info.lastName
  {
    var exam := Find(exams, ExamIdIs(result.examId));
    var student := Find(students, StudentIdIs(result.studentId));
    ResultDetails(
      result,
      if exam.Some? && exam.value.name != "" then exam.value.name else "Unknown Exam",
      if student.Some? then student.value.info.firstName + " " + student.value.info.lastName else "Unknown Student",
      if exam.Some? then Some(PercentOf(result.marksObtained, exam.value.totalMarks)) else None)
  }

  function DetailOf(exams: seq<Exam>, students: seq<Student>): ExamResult -> ResultDetails {
    (result: ExamResult) => Detail(exams, students, result)
  }

  /** `examResultsWithDetails`: one row per result, in the same order. */
  function ExamResultsWithDetails(examResults: seq<ExamResult>, exams: seq<Exam>, students: seq<Student>)
    : (r: seq<ResultDetails>)
    ensures |r| == |examResults|
    ensures forall i :: 0 <= i < |r| ==> r[i] == Detail(exams, students, examResults[i])
  {
    Map(examResults, DetailOf(exams, students))
  }

  /** A result whose exam id matches no exam is shown as "Unknown Exam" with percentage `'0'`. */
  lemma MissingExamIsUnknown(examResults: seq<ExamResult>, exams: seq<Exam>, students: seq<Student>, i: int)
    requires 0 <= i < |examResults|
    requires forall k :: 0 <= k < |exams| ==> exams[k].id != examResults[i].examId
    ensures ExamResultsWithDetails(examResults, exams, students)[i].examName == "Unknown Exam"
    ensures ExamResultsWithDetails(examResults, exams, students)[i].percentage.None?
  {
  }

  /** The inputs `handleExamChange` serves, by their `name` attribute. */
  datatype ExamField =
    | NameField | SubjectField | GradeLevelField | DateField | DurationField
    | TotalMarksField | PassingMarksField | VenueField | InstructionsField

  /** `numericFields`. */
  predicate IsNumeric(field: ExamField) {
    field == GradeLevelField || field == DurationField || field == TotalMarksField || field == PassingMarksField
  }

  /** The value of one field of a draft. */
  datatype FieldValue = Number(n: int) | Text(s: string) | OptionalText(o: Option<string>)

  function Get(draft: Exam, field: ExamField): FieldValue {
    match field
    case NameField => Text(draft.name)
    case SubjectField => Text(draft.subject)
    case GradeLevelField => Number(draft.gradeLevel)
    case DateField => Text(draft.date)
    case DurationField => Number(draft.duration)
    case TotalMarksField => Number(draft.totalMarks)
    case PassingMarksField => Number(draft.passingMarks)
    case VenueField => Text(draft.venue)
    case InstructionsField => OptionalText(draft.instructions)
  }

  /** `{ ...prev, [name]: numericFields.includes(name) ? parseInt(value) || 0 : value }`. */
  function ExamChange(draft: Exam, field: ExamField, value: string): (r: Exam)
    ensures r.id == draft.id
  {
    var n := ParseIntOrZero(value);
    match field
    case NameField => draft.(name := value)
    case SubjectField => draft.(subject := value)
    case GradeLevelField => draft.(gradeLevel := n)
    case DateField => draft.(date := value)
    case DurationField => draft.(duration := n)
    case TotalMarksField => draft.(totalMarks := n)
    case PassingMarksField => draft.(passingMarks := n)
    case VenueField => draft.(venue := value)
    case InstructionsField => draft.(instructions := Some(value))
  }

  /**
   * The named field takes the typed value, parsed with a fallback of 0 for
   * the numeric fields, and every other field keeps its value.
   */
  lemma ExamChangeSetsOnlyThatField(draft: Exam, field: ExamField, value: string)
    ensures IsNumeric(field) ==> Get(ExamChange(draft, field, value), field) == Number(ParseIntOrZero(value))
    ensures field == InstructionsField ==> Get(ExamChange(draft, field, value), field) == OptionalText(Some(value))
    ensures !IsNumeric(field) && field != InstructionsField ==> Get(ExamChange(draft, field, value), field) == Text(value)
    ensures forall other :: other != field ==> Get(ExamChange(draft, field, value), other) == Get(draft, other)
  {
    forall other | other != field ensures Get(ExamChange(draft, field, value), other) == Get(draft, other) {
      ExamChangeKeepsOther(draft, field, other, value);
    }
  }

  lemma ExamChangeKeepsOther(draft: Exam, field: ExamField, other: ExamField, value: string)
    requires other != field
    ensures Get(ExamChange(draft, field, value), other) == Get(draft, other)
  {
    var r := ExamChange(draft, field, value);
    match other
    case NameField => assert r.name == draft.name;
    case SubjectField => assert r.subject == draft.subject;
    case GradeLevelField => assert r.gradeLevel == draft.gradeLevel;
    case DateField => assert r.date == draft.date;
    case DurationField => assert r.duration == draft.duration;
    case TotalMarksField => assert r.totalMarks == draft.totalMarks;
    case PassingMarksField => assert r.passingMarks == draft.passingMarks;
    case VenueField => assert r.venue == draft.venue;
    case InstructionsField => assert r.instructions == draft.instructions;
  }

  /** A numeric field typed as something that does not parse becomes 0. */
  lemma NonNumericInputIsZero(draft: Exam, field: ExamField, value: string)
    requires IsNumeric(field) && ParseInt(value).None?
    ensures Get(ExamChange(draft, field, value), field) == Number(0)
  {
    ExamChangeSetsOnlyThatField(draft, field, value);
  }

  /** A numeric field typed as digits holds that number. */
  lemma DigitsAreParsed(draft: Exam, field: ExamField, n: nat)
    requires IsNumeric(field)
    ensures Get(ExamChange(draft, field, NatToString(n)), field) == Number(n)
  {
    ExamChangeSetsOnlyThatField(draft, field, NatToString(n));
    NatToStringRoundTrip(n);
  }
}

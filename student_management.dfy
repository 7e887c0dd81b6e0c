/**
 * The student list screen: the search and grade filter, what the add/edit
 * form's submit and the delete confirmation send to the store, and the
 * gender counts in the statistics cards.
 */
module StudentManagement {
  import opened Wrappers
  import opened Seqs
  import opened JsText
  import opened Types
  import opened Store

  /** What a submit of the student form hands to the store. */
  datatype StudentSubmit = AddStudent(info: StudentInfo) | UpdateStudent(student: Student)

  /** `handleStudentSubmit`: an edit keeps the edited student's id and avatar. */
  function SubmitStudent(editing: Option<Student>, data: StudentInfo): (r: StudentSubmit)
    ensures editing.None? <==> r.AddStudent?
    ensures r.AddStudent? ==> r.info == data
    ensures r.UpdateStudent? ==>
      r.student.id == editing.value.id && r.student.avatarUrl == editing.value.avatarUrl && r.student.info == data
  {
    match editing
    case None => AddStudent(data)
    case Some(s) => UpdateStudent(Student(s.id, s.avatarUrl, data))
  }

  /** Saving an edit of a stored student changes that student's fields and nothing else in the list. */
  lemma EditChangesOnlyThatStudent(students: seq<Student>, i: int, data: StudentInfo)
    requires 0 <= i < |students| && KeysDistinct(students, StudentId)
    ensures var r := ReplaceKey(students, StudentId, SubmitStudent(Some(students[i]), data).student);
      |r| == |students| && r[i] == students[i].(info := data) &&
      forall j :: 0 <= j < |students| && j != i ==> r[j] == students[j]
  {
    var edited := SubmitStudent(Some(students[i]), data).student;
    assert edited == students[i].(info := data);
    assert forall j :: 0 <= j < |students| && j != i ==> StudentId(students[j]) != StudentId(edited);
  }

  /** `handleDelete`: the id to delete, and nothing when no student is selected. */
  function DeleteRequest(toDelete: Option<Student>): (r: Option<string>)
    ensures r.None? <==> toDelete.None?
    ensures r.Some? ==> r.value == toDelete.value.id
  {
    match toDelete
    case None => None
    case Some(s) => Some(s.id)
  }

  /** The search and grade conditions of `filteredStudents`. */
  predicate Matches(student: Student, searchTerm: string, gradeFilter: Option<int>) {
    Includes(ToLower(student.info.firstName + " " + student.info.lastName), ToLower(searchTerm)) &&
    (gradeFilter.None? || student.info.grade == gradeFilter.value)
  }

  function MatchesFilter(searchTerm: string, gradeFilter: Option<int>): Student -> bool {
    (s: Student) => Matches(s, searchTerm, gradeFilter)
  }

  /** `filteredStudents`: the students matching both conditions, in list order. */
  function FilteredStudents(students: seq<Student>, searchTerm: string, gradeFilter: Option<int>): (r: seq<Student>)
    ensures IsSubsequence(r, students)
    ensures forall i :: 0 <= i < |r| ==> Matches(r[i], searchTerm, gradeFilter)
    ensures forall i :: 0 <= i < |students| && Matches(students[i], searchTerm, gradeFilter) ==> students[i] in r
  {
    FilterIsSubsequence(students, MatchesFilter(searchTerm, gradeFilter));
    Filter(students, MatchesFilter(searchTerm, gradeFilter))
  }

  /** With an empty search and no grade filter every student is listed. */
  lemma NoFilterListsAll(students: seq<Student>)
    ensures FilteredStudents(students, "", None) == students
  {
    forall i | 0 <= i < |students| ensures MatchesFilter("", None)(students[i]) {
      EmptyIncluded(ToLower(students[i].info.firstName + " " + students[i].info.lastName));
    }
    FilterAll(students, MatchesFilter("", None));
  }

  /** The search ignores ASCII case: a search and its lower-case form list the same students. */
  lemma SearchIgnoresCase(students: seq<Student>, searchTerm: string, gradeFilter: Option<int>)
    ensures FilteredStudents(students, ToLower(searchTerm), gradeFilter) == FilteredStudents(students, searchTerm, gradeFilter)
  {
    assert ToLower(ToLower(searchTerm)) == ToLower(searchTerm) by {
      forall i | 0 <= i < |searchTerm| ensures LowerChar(LowerChar(searchTerm[i])) == LowerChar(searchTerm[i]) {
      }
    }
    FilterSame(students, MatchesFilter(ToLower(searchTerm), gradeFilter), MatchesFilter(searchTerm, gradeFilter));
  }

  function IsMale(s: Student): bool { s.info.gender == Male }
  function IsFemale(s: Student): bool { s.info.gender == Female }

  /** The two gender cards add up to the total card, since gender is male or female. */
  lemma GenderCountsSum(students: seq<Student>)
    ensures Count(students, IsMale) + Count(students, IsFemale) == |students|
  {
    CountPartition(students, IsMale, IsFemale);
  }
}

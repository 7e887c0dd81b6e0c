# School dashboard core, modelled in Dafny

A model of the school-administration dashboard's record-keeping core.

- **The root store.** It holds six collections: students, teachers, support staff, courses, announcements and attendance marks. Add, update and delete handlers change them. The two cascading deletes keep the cross-references intact, and the attendance upsert is keyed by student and day.
- **The seed snapshot.** This is the data the application starts with, and the model proves that it satisfies the store's invariants.
- **The derivations the screens compute.** These are the attendance roster, the class editor, the student and staff filters and counts, the finance summary and category breakdown, the exam letter grades and counters, the inventory stock bands and the security incident filter.
- **The generic form, select and date-picker controls.**
- **The field checks and record builders of the student and teacher forms.**
- **The `YYYY-MM-DD` date rendering.**

Each source file has a module of its own:
- `store.dfy` covers `App.tsx`;
- `mock_data.dfy` covers `lib/mockData.ts`; `date_utils.dfy` covers `lib/dateUtils.ts`, adding the calendar arithmetic behind `subDays` and `getDay()`;
- there is one file per screen or control;
- `field_patterns.dfy` holds the regular expressions both forms use;
- `types.dfy` holds the records of `types.ts`.

Shared helpers live in `wrappers.dfy` (`Option`), `seqs.dfy` (filter, map, find and count on sequences), `js_text.dfy` and `percent.dfy`:
- `js_text.dfy` covers the JavaScript string operations the code relies on: `trim`, `toLowerCase`, `includes`, `padStart`, `join`, `parseInt`, number-to-string and string `<`.
- `percent.dfy` gives exact percentages, including the non-finite results of a division by zero.

State the source updates in place is written as classes:
- `Store.SchoolStore`;
- `ClassManagement.CourseEditor`;
- `FormBuilder.Form`;
- `Select.SelectState`;
- `DatePicker.DatePickerState`.

Each method's new state is given by a pure function of the old one, and the lemmas beside these functions state what the application promises. The loops of the source are methods with loop invariants:
- the month grid of the date picker;
- the validation pass of the form component;
- the category breakdown of the finance screen.

The model has no clock: the current time, the id timestamp and the platform's date parser are parameters.

## Model

| member | source | states |
|---|---|---|
| Store.NewId | App.tsx:51 | an id is the kind prefix followed by the timestamp's decimal text |
| Store.NewIdInjective | App.tsx:51 | two ids of one kind are equal exactly when their timestamps are |
| Store.NewStudent | App.tsx:50-52 | the appended student has id `s<now>`, avatar `https://i.pravatar.cc/150?u=` + id, and the submitted fields |
| Store.NewTeacher | App.tsx:65-67 | the same for teachers, with prefix `t` |
| Store.NewStaff | App.tsx:76-78 | the same for staff, with prefix `st` |
| Store.NewCourse | App.tsx:84 | the appended course has id `c<now>` and the submitted fields |
| Store.NewAnnouncement | App.tsx:90 | the new announcement has id `a<now>`, the current ISO instant as date, and the submitted fields |
| Store.AppendFreshKeepsIdsDistinct | App.tsx:52 | appending an element whose id no element has keeps ids unique |
| Store.SameTimestampCollides | App.tsx:51 | two adds with the same timestamp give the same id, so uniqueness rests on the clock alone |
| Store.WithoutStudent | App.tsx:58-59 | a course keeps its id and its other fields; its student ids lose exactly the deleted id and keep their order |
| Store.DropStudentFromCourses | App.tsx:57-60 | every course is kept, in place, with the id dropped from its students |
| Store.Unassign | App.tsx:72 | a course naming the teacher gets a `null` teacher, any other course is unchanged |
| Store.UnassignTeacher | App.tsx:72 | every course is kept, in place, unassigned where it named the teacher |
| Store.DeleteStudentCascade | App.tsx:55-62 | after `deleteStudent` the student is gone, every course remains without the id, and no attendance mark of the student is left |
| Store.DeleteTeacherCascade | App.tsx:70-73 | `deleteTeacher` deletes no course; the courses that named the teacher have none, the others are unchanged |
| Store.StillHasStudent | App.tsx:56 | a student other than the deleted one is still present |
| Store.StillHasTeacher | App.tsx:71 | a teacher other than the deleted one is still present |
| Store.DeleteStudentPreservesIntegrity | App.tsx:55-62 | if every course and attendance student id and every set teacher id resolves before `deleteStudent`, they all resolve after it |
| Store.DeleteTeacherPreservesIntegrity | App.tsx:70-73 | the same for `deleteTeacher` |
| Store.Upsert | App.tsx:94-104 | the first mark with the same student and day is overwritten in place and the length kept; without one the mark is appended |
| Store.UpsertFirstMatch | App.tsx:96-99 | after the upsert the first mark for that student and day is the new one |
| Store.UpsertKeepsSlotsUnique | App.tsx:94-104 | marks unique per student and day stay unique |
| Store.AppendFreshKeepsIdsDistinctPairs | App.tsx:102 | appending a mark for a new student and day keeps the pairs unique |
| Store.SchoolStore.constructor | App.tsx:41-46 | the store starts with the six given collections |
| Store.SchoolStore.AddStudent | App.tsx:50-53 | appends the new student and changes nothing else; integrity is kept |
| Store.SchoolStore.UpdateStudent | App.tsx:54 | replaces every student with the id, changes nothing else; integrity is kept |
| Store.SchoolStore.DeleteStudent | App.tsx:55-62 | removes the student, drops the id from courses and deletes the student's marks; nothing else changes; integrity is kept |
| Store.SchoolStore.AddTeacher | App.tsx:65-68 | appends the new teacher, nothing else changes; integrity is kept |
| Store.SchoolStore.UpdateTeacher | App.tsx:69 | replaces every teacher with the id, nothing else changes; integrity is kept |
| Store.SchoolStore.DeleteTeacher | App.tsx:70-73 | removes the teacher and unassigns its courses; nothing else changes; integrity is kept |
| Store.SchoolStore.AddStaff | App.tsx:76-79 | appends the new member; only the staff list changes |
| Store.SchoolStore.UpdateStaff | App.tsx:80 | replaces every member with the id; only the staff list changes |
| Store.SchoolStore.DeleteStaff | App.tsx:81 | filters only the staff list |
| Store.SchoolStore.AddCourse | App.tsx:84 | appends the new course; only the course list changes |
| Store.SchoolStore.UpdateCourse | App.tsx:85 | replaces every course with the id; only the course list changes |
| Store.SchoolStore.DeleteCourse | App.tsx:86 | filters only the course list; integrity is kept |
| Store.SchoolStore.AddAnnouncement | App.tsx:89-91 | the new announcement is first and the old list is its tail; nothing else changes |
| Store.SchoolStore.UpdateAttendance | App.tsx:94-104 | the marks become the upsert of the old marks; uniqueness per student and day is kept |
| Seqs.RemoveKey | App.tsx:56 | `filter(x => key(x) !== k)`: a subsequence with no element of that key, keeping every other element; no match leaves the list as it was |
| Seqs.RemoveKeyKeysDistinct | App.tsx:81 | removing by key keeps keys unique |
| Seqs.ReplaceKey | App.tsx:54 | `map(x => key(x) === key(y) ? y : x)`: same length, matches replaced, others unchanged, keys unchanged; no match leaves the list as it was |
| Seqs.FindIndex | App.tsx:96 | `findIndex`: the first index satisfying the predicate, or -1 when none does |
| Seqs.Find | components/Attendance.tsx:24 | `find`: `None` exactly when no element satisfies the predicate, else the first that does |
| Seqs.Filter | components/Finance.tsx:120 | `filter`: keeps exactly the elements satisfying the predicate |
| Seqs.FilterMultiplicity | components/Finance.tsx:120 | every matching value keeps all its copies and every other value loses all of them |
| Seqs.FilterIsSubsequence | components/Finance.tsx:120 | a filter's result is a subsequence of its input |
| Seqs.CountPartition | components/StudentManagement.tsx:160-169 | two complementary predicates split a list's length |
| Seqs.CountDisjoint | components/StaffManagement.tsx:256-267 | two exclusive predicates count at most the list's length |
| MockData.SeedBalancesConsistent | lib/mockData.ts:18-119 | every seed balance is tuition + transport + boarding − totalPaid, absent fees counting 0 |
| MockData.SeedCourseStudentsInGrade | lib/mockData.ts:305-309 | every student a seed course lists is a seed student of the course's grade |
| MockData.SeedCourseTeachersResolve | lib/mockData.ts:305-309 | every seed course's teacher is a seed teacher |
| MockData.SeedAttendanceWellFormed | lib/mockData.ts:318-329 | at most one seed mark per student and day, each naming a seed student |
| MockData.AttendanceOnWellFormed | lib/mockData.ts:321-329 | the five marks are unique per student and day whenever today and yesterday differ |
| MockData.TodayIsNotYesterday | lib/mockData.ts:318-319 | today's and yesterday's renderings differ |
| MockData.SeedIntegral | lib/mockData.ts:10-333 | the whole seed is referentially intact |
| MockData.SeedAnnouncementsNewestFirst | lib/mockData.ts:311-316 | for today's UTC year in 1001..9999, each seed announcement's date string is greater than the next one's |
| MockData.DatedOrder | lib/mockData.ts:311-316 | announcements given decreasing dates are newest first |
| MockData.IsoDaysAgoOrder | lib/mockData.ts:313-315 | going back more days gives a smaller ISO string |
| MockData.SubDaysYearBound | lib/mockData.ts:4-8 | a week back from a four-digit year stays within one year |
| MockData.SubDaysLateDecember | lib/mockData.ts:4-8 | a walk back of at most a week that leaves the year ends in late December |
| MockData.SeedStudentIdsAndAvatars | lib/mockData.ts:18-119 | seed student ids are unique and each avatar is the prefix followed by the id |
| MockData.SeedTeacherIdsAndAvatars | lib/mockData.ts:121-182 | the same for teachers |
| MockData.SeedStaffIdsAndAvatars | lib/mockData.ts:184-303 | the same for staff |
| MockData.SeedCourseIdsDistinct | lib/mockData.ts:305-309 | seed course ids are unique |
| MockData.SeedAnnouncementIdsDistinct | lib/mockData.ts:311-316 | seed announcement ids are unique |
| MockData.DatedIdsDistinct | lib/mockData.ts:311-316 | the ids `a1`..`a4` are unique whatever the dates |
| MockData.SeedAnnouncementInfos | lib/mockData.ts:311-316 | there are four announcement contents |
| DateUtils.DaysInMonth | components/ui/DatePicker.tsx:69 | `new Date(y, m + 1, 0).getDate()`: 28 to 31 days, 29 exactly for a leap February |
| DateUtils.Pad2Digits | lib/dateUtils.ts:4-5 | `padStart(2, '0')` of a number below 100 gives two digits that read back as the number |
| DateUtils.DateParts | lib/dateUtils.ts:6 | where the year, the two dashes and the two-digit fields sit in `y-m-d` |
| DateUtils.FormatLayout | lib/dateUtils.ts:2-7 | the rendering is the year's text, a dash, the month 01..12, a dash, the day, both as two digits |
| DateUtils.ReadBackLayout | lib/dateUtils.ts:6 | a string laid out that way reads back to its three fields |
| DateUtils.FormatReadBack | lib/dateUtils.ts:2-7 | the fields of every valid date can be read back from its rendering |
| DateUtils.FormatInjective | lib/dateUtils.ts:2-7 | distinct dates render differently |
| DateUtils.FormatLength | lib/dateUtils.ts:2-7 | a four-digit year gives a ten-character string |
| DateUtils.LessAroundDash | lib/dateUtils.ts:6 | comparing `a-x` with `b-y` for equal-length `a`, `b` compares `a`, `b` first |
| DateUtils.EqualAroundDash | lib/dateUtils.ts:6 | `a-x` equals `b-y` for equal-length `a`, `b` exactly when both parts do |
| DateUtils.LessFixedWidth | lib/dateUtils.ts:4-5 | equal-width digit strings compare as their values |
| DateUtils.FormatOrder | lib/dateUtils.ts:2-7 | for four-digit years, string order of renderings is chronological order |
| DateUtils.LayoutOrder | lib/dateUtils.ts:6 | `y-m-d` layouts of comparable parts compare lexicographically by field |
| DateUtils.PrevDay | lib/mockData.ts:6 | `setDate(getDate() - 1)`: a valid date strictly before |
| DateUtils.PrevDayImmediate | lib/mockData.ts:6 | no valid date lies strictly between the previous day and the day |
| DateUtils.SubDays | lib/mockData.ts:4-8 | `subDays` gives a valid date |
| DateUtils.SubDaysStrictlyEarlier | lib/mockData.ts:4-8 | going back further gives a strictly earlier date |
| DateUtils.DayOfWeek | components/ui/DatePicker.tsx:76 | `getDay()` lies in 0..6 |
| DateUtils.YearTermStep | components/ui/DatePicker.tsx:76 | the weekday sum grows by two across a leap year and by one otherwise |
| DateUtils.MonthBoundaryShift | components/ui/DatePicker.tsx:76 | the month offsets step by the length of the month before, modulo 7 |
| DateUtils.DayOfWeekPrevDay | components/ui/DatePicker.tsx:76 | the day before is one weekday earlier |
| DateUtils.WeekdayAnchor | components/ui/DatePicker.tsx:76 | `getDay()` numbering with 0 for Sunday: 1970-01-01 is a Thursday (4), 2000-01-01 a Saturday (6), 2024-02-29 a Thursday (4); DayOfWeekPrevDay then steps from these days to any other, one weekday per day |
| AttendanceView.InitialCourse | components/Attendance.tsx:14 | the first course's id, or `''` when there are no courses |
| AttendanceView.InitialCourseResolves | components/Attendance.tsx:14 | the initial selection names a course exactly when there is one |
| AttendanceView.ResolveStudents | components/Attendance.tsx:20 | the roster is no longer than the id list |
| AttendanceView.ResolveStudentsSpec | components/Attendance.tsx:20 | the roster's ids are, in order, exactly the listed ids that some student has, each resolved to the first student with it |
| AttendanceView.StudentsInClass | components/Attendance.tsx:17-21 | empty when no course has the selected id, otherwise the resolved roster of the first such course |
| AttendanceView.StatusFor | components/Attendance.tsx:23-26 | the status of the first mark for the student and day, `'present'` when there is none |
| AttendanceView.StatusChangeTakesEffect | components/Attendance.tsx:28-30 | once the store has applied `{studentId, date, status}`, the screen shows that status |
| AttendanceView.StatusChangeElsewhere | components/Attendance.tsx:23-30 | a status change leaves every other student and day as it was |
| ClassManagement.ApplyChange | components/ClassManagement.tsx:42-55 | the named field takes the value; a grade change parses with fallback 0 and clears the enrolment; other changes keep it |
| ClassManagement.NonNumericGradeIsZero | components/ClassManagement.tsx:45 | a grade that does not parse becomes 0 |
| ClassManagement.NumericGradeIsParsed | components/ClassManagement.tsx:45 | a grade typed as digits is that number |
| ClassManagement.StudentsForGrade | components/ClassManagement.tsx:78-81 | none while the grade is 0, otherwise exactly the students of that grade, in order |
| ClassManagement.TeacherName | components/ClassManagement.tsx:72-76 | `null` or `''` shows "Unassigned", an unknown id "Unknown", else "first last" of the first teacher with the id |
| ClassManagement.IntactStoreHasNoUnknownTeacher | components/ClassManagement.tsx:72-76 | in an intact store no course shows "Unknown" |
| ClassManagement.DeletedTeacherShowsUnassigned | App.tsx:72 | after `deleteTeacher` its courses show "Unassigned" |
| ClassManagement.UnassignedOptionIsNotNull | components/ClassManagement.tsx:133-134 | the "Unassigned" option stores `''`, which shows "Unassigned" yet breaks the store's integrity rule |
| ClassManagement.SelectionMatchesGrade | components/ClassManagement.tsx:57-60 | choosing among the offered students keeps the enrolment within the grade |
| ClassManagement.ChangeKeepsEnrolment | components/ClassManagement.tsx:42-55 | every field change keeps the enrolment within the grade |
| ClassManagement.CourseEditor.constructor | components/ClassManagement.tsx:25-26 | the editor starts on the empty course in add mode |
| ClassManagement.CourseEditor.OpenAdd | components/ClassManagement.tsx:28-32 | opening the add form resets the draft to the empty course |
| ClassManagement.CourseEditor.OpenEdit | components/ClassManagement.tsx:34-38 | opening the edit form loads the course and its id |
| ClassManagement.CourseEditor.HandleChange | components/ClassManagement.tsx:42-55 | the draft becomes `ApplyChange` of the old draft; the mode and id are kept |
| ClassManagement.CourseEditor.HandleStudentSelect | components/ClassManagement.tsx:57-60 | the selected ids, in order, become the enrolment |
| ClassManagement.CourseEditor.HandleSubmit | components/ClassManagement.tsx:62-70 | edit mode sends an update of the edited course, add mode an add, never both |
| StudentManagement.SubmitStudent | components/StudentManagement.tsx:55-62 | an edit forwards the data with the edited student's id and avatar; otherwise the data goes to add unchanged |
| StudentManagement.EditChangesOnlyThatStudent | components/StudentManagement.tsx:55-57 | saving an edit changes that student's fields and no other list entry |
| StudentManagement.DeleteRequest | components/StudentManagement.tsx:48-53 | the selected student's id, and nothing without a selection |
| StudentManagement.FilteredStudents | components/StudentManagement.tsx:65-69 | a subsequence of exactly the students whose "first last" contains the search, ignoring case, and whose grade matches a set filter |
| StudentManagement.NoFilterListsAll | components/StudentManagement.tsx:65-69 | an empty search and no grade filter list everyone |
| StudentManagement.SearchIgnoresCase | components/StudentManagement.tsx:66 | a search and its lower-case form list the same students |
| StudentManagement.GenderCountsSum | components/StudentManagement.tsx:151-169 | the male and female cards add up to the total |
| StaffManagement.DepartmentStatsCounts | components/StaffManagement.tsx:73-79 | each department's count is its number of members; a department is a key exactly when it has one |
| StaffManagement.ShownTotalBump | components/StaffManagement.tsx:75 | bumping one count raises the sum of tiles by that department's occurrences |
| StaffManagement.NoTiles | components/StaffManagement.tsx:77 | the empty accumulator shows 0 on every tile |
| StaffManagement.DepartmentsOnce | components/StaffManagement.tsx:81 | the tile list names each department exactly once |
| StaffManagement.TilesSum | components/StaffManagement.tsx:291 | the tiles of a list naming every department once add up to the staff count |
| StaffManagement.DepartmentTilesSum | components/StaffManagement.tsx:246 | the eight department tiles add up to `staff.length` |
| StaffManagement.FilteredStaff | components/StaffManagement.tsx:69-71 | no filter gives every member; a department gives exactly its members, in order |
| StaffManagement.FilterMatchesTile | components/StaffManagement.tsx:69-77 | a department's filtered list is as long as its tile says |
| StaffManagement.EmploymentCardsBounded | components/StaffManagement.tsx:246-267 | Full-time plus Part-time is at most the total |
| StaffManagement.EditStaff | components/StaffManagement.tsx:37-48 | the form data with the selected member's id and avatar; nothing without a selection |
| StaffManagement.EditChangesOnlyThatMember | components/StaffManagement.tsx:42 | saving an edit changes that member and no other |
| StaffManagement.DeleteStaffRequest | components/StaffManagement.tsx:50-55 | the selected member's id; nothing without a selection |
| Finance.FilteredRecords | components/Finance.tsx:119-127 | a subsequence of exactly the records matching type, category and the string date bounds that are set |
| Finance.ClearedListsAll | components/Finance.tsx:313-317 | after "Clear Filters" every record is listed, in order |
| Finance.DateBoundsAreChronological | components/Finance.tsx:123-124 | for rendered four-digit dates, the string bounds are chronological bounds |
| Finance.SumAmountsAppend | components/Finance.tsx:132 | the amount sum of two lists is the sum of their sums |
| Finance.Summarize | components/Finance.tsx:129-143 | `netIncome = income − expenses` and `totalTransactions` is the number of filtered records |
| Finance.IncomeAndExpensesSplitTotal | components/Finance.tsx:130-135 | income plus expenses is the total amount |
| Finance.CategoriesSpec | components/Finance.tsx:148-151 | each category of the records is listed exactly once, and nothing else |
| Finance.CategoryTotalsSum | components/Finance.tsx:145-160 | summed over all categories, each type's totals equal the summary's |
| Finance.TallyStep | components/Finance.tsx:148-153 | one `forEach` step keeps the accumulator equal to the per-category totals of the records seen |
| Finance.EntriesOfTally | components/Finance.tsx:155-159 | the rows of a complete accumulator list each category once, carry its totals, and add up to the summary |
| Finance.AddRecord | components/Finance.tsx:149-152 | a missing category gets a zero row, then the amount is added to its type's column |
| Finance.CategoryBreakdown | components/Finance.tsx:145-160 | one row per category in first-appearance order, with its income, expense and `net = income − expense`; the columns add up to the summary |
| ExamManagement.GradeCalculation | components/ExamManagement.tsx:88-97 | the letter is one of A, B+, B, C+, C, D, F |
| ExamManagement.GradeBands | components/ExamManagement.tsx:89-96 | with total ≥ 1 the letter is the band where `100*marks ≥ k*total` holds for its threshold and fails for the next |
| ExamManagement.FullAndZeroMarks | components/ExamManagement.tsx:88-97 | full marks give A, no marks give F |
| ExamManagement.GradeMonotone | components/ExamManagement.tsx:88-97 | for a fixed total more marks never give a lower letter |
| ExamManagement.ComputeExamStats | components/ExamManagement.tsx:116-123 | the counters are the exam count, the upcoming and completed counts, and the result count |
| ExamManagement.UpcomingPlusCompleted | components/ExamManagement.tsx:117-119 | upcoming plus completed plus the exams with unparsable dates is the total |
| ExamManagement.UpcomingPlusCompletedIsTotal | components/ExamManagement.tsx:117-119 | when every date parses, upcoming plus completed is the total |
| ExamManagement.Detail | components/ExamManagement.tsx:127-134 | a row carries the result and the exam name or "Unknown Exam", the student name or "Unknown Student", and a percentage only with an exam |
| ExamManagement.ExamResultsWithDetails | components/ExamManagement.tsx:125-136 | one row per result, in order |
| ExamManagement.MissingExamIsUnknown | components/ExamManagement.tsx:131-133 | a result of no known exam shows "Unknown Exam" and percentage '0' |
| ExamManagement.ExamChange | components/ExamManagement.tsx:159-166 | a change keeps the exam's id |
| ExamManagement.ExamChangeSetsOnlyThatField | components/ExamManagement.tsx:159-166 | the named field takes the value, parsed with fallback 0 for the four numeric fields; every other field is unchanged |
| ExamManagement.NonNumericInputIsZero | components/ExamManagement.tsx:164 | an unparsable numeric input becomes 0 |
| ExamManagement.DigitsAreParsed | components/ExamManagement.tsx:164 | a numeric input typed as digits holds that number |
| Inventory.StockColorClass | components/Inventory.tsx:30-35 | the class is one of red, yellow, green, blue |
| Inventory.StockBands | components/Inventory.tsx:30-38 | with a positive maximum: red up to 25 %, yellow up to 50 %, green up to 85 %, blue above, by cross-multiplication |
| Inventory.StockBandMonotone | components/Inventory.tsx:30-35 | more stock never moves the bar to a lower band |
| Inventory.EmptyIsRedFullIsBlue | components/Inventory.tsx:30-38 | an empty shelf is red, a full one blue |
| Inventory.BarWidth | components/Inventory.tsx:122 | the width is at most 100 unless the percentage is `NaN` |
| Inventory.BarWidthOfStock | components/Inventory.tsx:122 | within the maximum the width is the stock percentage; over it, exactly 100 |
| Inventory.Summarize | components/Inventory.tsx:286-290 | the item count and the low-stock and out-of-stock counts |
| Inventory.OutOfStockWithinLowStock | components/Inventory.tsx:289-290 | out-of-stock ≤ low-stock ≤ total |
| Inventory.TotalValueBoundsEachItem | components/Inventory.tsx:288 | non-negative values add up to a total that bounds each |
| Inventory.FilteredItems | components/Inventory.tsx:292-300 | a subsequence of exactly the items matching search, category and status |
| Inventory.NoFilterListsAll | components/Inventory.tsx:292-300 | "all", "all" and an empty search list every item |
| Percentages.PercentOf | components/Inventory.tsx:38 | `(part / whole) * 100` exactly: a ratio for a non-zero whole, else `Infinity`, `-Infinity` or `NaN` by the part's sign |
| Percentages.AtLeastCrossMultiply | components/ExamManagement.tsx:89-90 | with a positive whole, `p >= k` is `100*part >= k*whole` |
| Percentages.AtMostCrossMultiply | components/Inventory.tsx:31 | with a positive whole, `p <= k` is `100*part <= k*whole` |
| Percentages.AtLeastMonotone | components/ExamManagement.tsx:89 | a larger part never gives a smaller percentage |
| Percentages.CapAt100 | components/Inventory.tsx:122 | `Math.min(p, 100)`: `NaN` stays `NaN`, at most 100 is kept, anything above becomes 100 |
| Security.FilteredIncidents | components/Security.tsx:145-150 | a subsequence; "open" keeps exactly open and investigating, "resolved" exactly resolved and closed |
| Security.AllListsEverything | components/Security.tsx:146 | "all" lists every incident in order |
| Security.OpenAndResolvedPartition | components/Security.tsx:147-148 | "open" and "resolved" share no incident and together have all of them |
| Security.CameraStatusColor | components/Security.tsx:181-185 | green exactly for 'online', red exactly for 'offline', yellow for anything else |
| FormBuilder.FieldError | components/ui/FormBuilder.tsx:50-65 | a blank required field gets exactly "<label> is required" and skips its validator; otherwise the validator's non-empty result on a truthy value; an optional falsy value gets nothing |
| FormBuilder.ErrorsEmptyIff | components/ui/FormBuilder.tsx:68-69 | the error map is empty exactly when no field produced an error |
| FormBuilder.ErrorKeysStay | components/ui/FormBuilder.tsx:50-66 | an error recorded earlier survives later fields |
| FormBuilder.ErrorOfField | components/ui/FormBuilder.tsx:50-66 | with distinct names each field's entry is exactly its error |
| FormBuilder.ErrorKeysAreFieldNames | components/ui/FormBuilder.tsx:48-66 | every key of the error map is a field's name |
| FormBuilder.FalsyNumbersAreMissing | components/ui/FormBuilder.tsx:54 | a required field holding `0` or `false` is reported missing |
| FormBuilder.WhitespaceIsMissing | components/ui/FormBuilder.tsx:54 | a required whitespace-only string is reported missing |
| FormBuilder.Form.constructor | components/ui/FormBuilder.tsx:35-36 | the form opens on its initial data with no errors |
| FormBuilder.Form.HandleFieldChange | components/ui/FormBuilder.tsx:38-45 | only the named key changes; its error becomes `''` if it had one |
| FormBuilder.Form.ValidateForm | components/ui/FormBuilder.tsx:47-70 | the errors become those of the pass over the fields; the result is true exactly when there are none |
| FormBuilder.Form.HandleSubmit | components/ui/FormBuilder.tsx:72-77 | the data is handed on exactly when validation passes |
| Select.Toggle | components/ui/Select.tsx:74-76 | a selected value is removed with the others kept in order; any other value is appended |
| Select.ToggleFlips | components/ui/Select.tsx:74-76 | a click flips the clicked value's membership and no other's |
| Select.ToggleTwiceRestores | components/ui/Select.tsx:74-76 | clicking an unselected value twice restores the selection |
| Select.ToggleKeepsDistinct | components/ui/Select.tsx:74-76 | a selection without repeats keeps none |
| Select.FilteredOptions | components/ui/Select.tsx:42-46 | not searchable: every option; searchable: exactly the options whose lower-cased label contains the lower-cased term |
| Select.EmptySearchShowsAll | components/ui/Select.tsx:42-46 | an empty search shows every option |
| Select.DisplayValue | components/ui/Select.tsx:52-58 | "n selected" or the placeholder in multiple mode; otherwise the first matching option's label, the raw value, or the placeholder |
| Select.UnknownValueShownRaw | components/ui/Select.tsx:57 | a value no option has is shown as it is |
| Select.SelectState.constructor | components/ui/Select.tsx:35-39 | multiple mode starts with the given value selected, if any; closed, no search |
| Select.SelectState.HandleOptionClick | components/ui/Select.tsx:72-84 | multiple: the selection is toggled and emitted joined with ','; single: the value is emitted and the list closes with the search cleared |
| Select.SelectState.ClickOption | components/ui/Select.tsx:147 | a disabled option changes nothing and emits nothing; an enabled one has the effect of `handleOptionClick`, with the whole new state given |
| DatePicker.FirstWeekday | components/ui/DatePicker.tsx:68 | the first of the month's weekday is in 0..6 |
| DatePicker.GetDaysInMonth | components/ui/DatePicker.tsx:64-86 | the grid is `firstWeekday` empty cells, then the days 1..last of the month in order |
| DatePicker.WeekdayInMonth | components/ui/DatePicker.tsx:76-83 | day d of a month falls on weekday `(first + d − 1) mod 7` |
| DatePicker.GridColumnsAreWeekdays | components/ui/DatePicker.tsx:76-83 | each cell holds a real date of the month, in the column of its weekday |
| DatePicker.GridHoldsEachDayOnce | components/ui/DatePicker.tsx:81-83 | each day of the month appears exactly once |
| DatePicker.IsDateDisabled | components/ui/DatePicker.tsx:57-62 | disabled exactly when the rendering is below a given minimum or above a given maximum |
| DatePicker.DisabledOutsideRange | components/ui/DatePicker.tsx:57-62 | with rendered four-digit bounds, disabled exactly when before the first or after the last allowed day |
| DatePicker.NoBoundsNothingDisabled | components/ui/DatePicker.tsx:59-60 | without bounds (or empty ones) nothing is disabled |
| DatePicker.DatePickerState.HandleDateClick | components/ui/DatePicker.tsx:88-93 | an allowed day is emitted and closes the picker; a disabled day does nothing |
| FieldPatterns.RenderMatches | components/modals/StudentModal.tsx:107 | any spacing of three-digit groups matches `(\s?\d{3}){n}` |
| FieldPatterns.Decompose | components/modals/StudentModal.tsx:107 | every match splits into optional spaces and three-digit groups that render back to it |
| FieldPatterns.PhoneParts | components/modals/StudentModal.tsx:107 | every accepted phone is `+256` and three groups, each optionally after one space |
| FieldPatterns.PhoneAccepted | components/modals/StudentModal.tsx:107 | every such number matches |
| FieldPatterns.PhoneLength | components/modals/StudentModal.tsx:107 | accepted numbers have 13 to 16 characters |
| FieldPatterns.PlaceholderPhoneAccepted | components/modals/StudentModal.tsx:104 | the forms' placeholder `+256 700 000 000` matches |
| FieldPatterns.EmailPatternIff | components/modals/TeacherModal.tsx:64 | the regex accepts exactly: no whitespace, one `@` with text before it, and a `.` after it with a character on each side |
| FieldPatterns.PhoneError | components/modals/StudentModal.tsx:106-110 | no error exactly for a matching number, otherwise the phone message |
| StudentModal.NameError | components/modals/StudentModal.tsx:30-34 | accepted exactly when at least 2 characters, all ASCII letters; the message says which check failed |
| StudentModal.NamesWithSeparatorsRefused | components/modals/StudentModal.tsx:32 | names with a space or a hyphen are refused |
| StudentModal.FirstNameFieldError | components/modals/StudentModal.tsx:24-35 | a blank first name is "First Name is required", anything else gets the name check's verdict |
| StudentModal.GradeParses | components/modals/StudentModal.tsx:76-83 | every grade option parses to 1..6 and renders back to itself |
| StudentModal.GradeShown | components/modals/StudentModal.tsx:154 | a grade in 1..6 is shown as one of the options |
| StudentModal.InitialData | components/modals/StudentModal.tsx:149-161 | the edit form shows the grade as text and absent optional fields as `''` |
| StudentModal.DefaultFees | components/modals/StudentModal.tsx:177-183 | a new student's fees are consistent (950000 = 500000 + 150000 + 300000 − 0) and nothing is paid |
| StudentModal.Optional | components/modals/StudentModal.tsx:175-176 | an empty entry becomes `undefined`, any other is kept |
| StudentModal.BuildStudent | components/modals/StudentModal.tsx:163-184 | the record: grade parsed in 1..6, gender from its option, optional fields, fees and admission date kept when editing, defaults otherwise, other fields copied |
| StudentModal.EditUnchangedRoundTrip | components/modals/StudentModal.tsx:149-184 | submitting the edit form unchanged gives the student back |
| TeacherModal.NameError | components/modals/TeacherModal.tsx:39-44 | accepted exactly when at least 2 characters, all ASCII letters or whitespace |
| TeacherModal.SpacedNamesAccepted | components/modals/TeacherModal.tsx:41 | two names joined by a space, and even two spaces, are accepted |
| TeacherModal.EmailError | components/modals/TeacherModal.tsx:63-67 | no error exactly for an address of the shape described above |
| TeacherModal.NationalIdError | components/modals/TeacherModal.tsx:118-122 | accepted exactly for two capitals and twelve digits; other lengths get the length message, the rest the format message |
| TeacherModal.PlaceholderIdRefused | components/modals/TeacherModal.tsx:116-120 | the example id shown, 15 characters long, is refused with the length message |
| TeacherModal.WellFormedIdAccepted | components/modals/TeacherModal.tsx:120 | any two capitals followed by twelve digits are accepted |
| TeacherModal.ExperienceError | components/modals/TeacherModal.tsx:144-149 | accepted exactly when `parseInt` gives n with 0 ≤ n ≤ 50, with the message for each failure |
| TeacherModal.SalaryError | components/modals/TeacherModal.tsx:200-206 | accepted exactly when `parseInt` gives n with 200000 ≤ n ≤ 5000000, with the message for each failure |
| TeacherModal.RenderedNumbersAccepted | components/modals/TeacherModal.tsx:221-226 | in-range numbers, as the edit form writes them, pass their checks |
| TeacherModal.DefaultSalaryAccepted | components/modals/TeacherModal.tsx:227-229 | the default salary '800000' passes the salary check |
| TeacherModal.EmploymentOf | components/modals/TeacherModal.tsx:243 | the chosen option maps to the employment type it names |
| TeacherModal.EmploymentRoundTrip | components/modals/TeacherModal.tsx:222 | reading back a stored employment type gives it back |
| TeacherModal.NewTeacherForm | components/modals/TeacherModal.tsx:227-229 | a new form holds only the default salary |
| TeacherModal.JoiningShown | components/modals/TeacherModal.tsx:223 | `dateOfJoining \|\| hireDate` |
| TeacherModal.InitialData | components/modals/TeacherModal.tsx:211-226 | experience and salary shown as text, the joining date as shown |
| TeacherModal.BuildTeacher | components/modals/TeacherModal.tsx:231-249 | hire date and joining date are the form's joining date; experience and salary are the parsed in-range numbers; other fields copied |
| TeacherModal.EditUnchangedRoundTrip | components/modals/TeacherModal.tsx:211-249 | submitting the edit form unchanged gives the teacher back, both dates becoming the date shown |
| Types.GenderValue | types.ts:9 | a gender is stored as 'male' or 'female' |
| Types.GenderOf | components/modals/TeacherModal.tsx:95-96 | a chosen gender option maps to the gender it names |
| Types.DepartmentsComplete | types.ts:118 | every department of the union is on the tile list |
| TeacherModal.EmploymentValue | types.ts:42 | a teacher's employment type is one of the four select options |
| DatePicker.DatePickerState.constructor | components/ui/DatePicker.tsx:27 | the picker starts closed |
| ExamManagement.ExamChangeKeepsOther | components/ExamManagement.tsx:162-165 | a change of one field leaves every other field as read back unchanged |
| ExamManagement.ThreeWaySplit | components/ExamManagement.tsx:117-119 | every exam is upcoming, completed or of an unparsable date, and exactly one of these |
| Finance.Entries | components/Finance.tsx:155-159 | one row per category of the order, each carrying that category's amounts |
| Seqs.FilterAll | components/Finance.tsx:313-317 | a predicate every element satisfies filters nothing out |
| JsText.ToLower | components/StudentManagement.tsx:66 | same length, each character lowered |
| JsText.PadStart | lib/dateUtils.ts:4-5 | `padStart`: the string right-aligned in the width with the fill before it |
| JsText.NatToString | lib/dateUtils.ts:3 | a number's text is non-empty and made of decimal digits |
| Types.GenderRoundTrip | types.ts:9 | reading back a stored gender gives it back |
| JsText.TrimEmptyIff | components/ui/FormBuilder.tsx:54 | `trim() === ''` exactly for whitespace-only strings |
| JsText.LessConcat | components/Finance.tsx:123 | string `<` on equal-length prefixes decides first |
| JsText.LessCons | components/Finance.tsx:123 | string `<` compares the first characters first |
| JsText.NatToStringRoundTrip | components/modals/StudentModal.tsx:169 | `parseInt` of a non-negative number's text gives the number |
| JsText.IntToStringRoundTrip | components/modals/TeacherModal.tsx:242 | `parseInt` of any integer's text gives the integer |
| JsText.LessDigits | lib/dateUtils.ts:4-5 | equal-length digit strings compare as their values |
| JsText.DigitsValueInjective | lib/dateUtils.ts:4-5 | equal-length digit strings with equal values are equal |
| JsText.NatToStringLength | lib/dateUtils.ts:3 | a number of k decimal digits has a text of exactly k characters, so days and months below 10 need the padding |

## Left out

- Rendering: JSX, CSS classes, the status→class tables, charts and animation. React's `useState`/`useMemo`/`useCallback` machinery, modal open/close flags and the `loading` wrappers are also left out. The model keeps only the state the handlers compute.
- The generative-AI service and its helper component: they make network calls to a foreign SDK.
- `TeacherManagement.tsx` and the fixture-only screens (cafeteria, transport, maintenance, admissions, payroll, library, reports, settings, dashboard) are not part of this model: they repeat the filter-and-count pattern modelled for finance and inventory, or they are presentation.
- The clock and the platform's date parser. `Date.now()` is the `now` parameter of the adds. The current ISO instant is the `isoNow` parameter of `AddAnnouncement`. The exam counters take `now` and an `instant` parsing function (unparsable dates are `None` and count in neither counter). The seed takes today's local date, the UTC date and the clock suffix of `toISOString()`.
- Time zones and daylight saving. The seed announcements' `subDays(...).toISOString()` is modelled on the UTC date, stepped back in whole days. Its year is written as plain decimal text (`FormatYYYYMMDD`), whereas `toISOString` pads years below 1000 to four digits and writes years above 9999 as `+0YYYYY`. So the rendering, and MockData.SeedAnnouncementsNewestFirst, hold as in the application only for years 1000 to 9999; the lemma asks for 1001 to 9999, so that a week back is still a four-digit year.
- DatePicker.IsDateDisabled: the day is rendered from its own calendar fields. The application's `formatDate` goes through `toISOString`, which renders the UTC date of local midnight, so east of UTC it gives the previous day. The same holds for DatePicker.DatePickerState.HandleDateClick. The model also holds only for years 1000 to 9999. Outside them, `toISOString` pads the year to four digits or writes it as `±YYYYYY`, where the model writes the plain decimal year. For example, 999-12-31 against the minimum `1000-01-01` is disabled in the application (`0999-12-31`) but not in the model (`999-12-31`). The month grid (DatePicker.FirstWeekday, DatePicker.GetDaysInMonth) is built for the year itself, whereas `new Date(year, month, d)` maps the years 0 to 99 to 1900 to 1999.
- `navigateMonth` and `parseDate` of the date picker: `setMonth` overflow and string-to-date parsing depend on the host's date library.
- The age and joining-date validators of the two forms: they compare against the current date through `Date` arithmetic.
- Floating point:
  - the exam percentage's `toFixed(1)` is replaced by an exact ratio (`None` where the screen shows '0');
  - `parseFloat` of finance amounts, where amounts are integers;
  - the dashboard's averages.
  Percentages are exact ratios, so no rounding is modelled.
- Currency and date formatting through `Intl` and `toLocaleString`.
- Unicode: `toLowerCase` is modelled for ASCII letters only; whitespace is the ECMAScript set. Strings are sequences of Unicode scalar values, whereas JavaScript strings are sequences of UTF-16 code units. So outside the Basic Multilingual Plane, `.length` and `<` differ from JavaScript. This affects the name and national-id checks (StudentModal.NameError, TeacherModal.NameError, TeacherModal.NationalIdError): a string with a character such as U+1F600 may get the length message where the application gives the format message, although whether it is accepted is the same. It also affects string order (JsText.Less): JavaScript puts U+10000 before U+FFFF.
- `parseInt` is modelled on unbounded integers: the precision loss of very long digit strings is not modelled.
- Finance.CategoryBreakdown: `Object.entries` is modelled as key insertion order. JavaScript lists integer-like keys first in numeric order, and a category named like an `Object.prototype` member (`constructor`, `toString`) starts out truthy; neither is modelled.
- Finance's record form (`handleChange`/`handleSubmit` of new records) and the exam form's submit and `emptyExam`: they only forward typed data to handlers that are not part of this model.
- The empty course of the class editor: the application's `emptyCourse` lacks `subject` and `schedule` (so they are `undefined`); here they are `''` and the empty schedule.
- Select.SelectState.constructor: a `value` given as an array is not modelled; `value` is a single optional string.
- StudentModal.BuildStudent and TeacherModal.BuildTeacher require what the form's validation guarantees before submit: the selects hold one of their options, and for teachers the experience and salary checks passed. Submits with a missing or unparsable entry are not modelled.
- The field lists of the two forms are modelled only as far as their checks and options go; labels, placeholders and helper texts are not. A missing form entry reads as `''`, and the modals' validators are applied to text values only (`StudentModal.OnText`).
- FormBuilder.FieldError: a validator result of `''` counts as no error, as JavaScript's `if (error)` has it. Number values are integers; `NaN` is a value of its own.

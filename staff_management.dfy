/**
 * The staff screen: the department filter, the per-department counts
 * (`getDepartmentStats`, a fold into a dictionary), the statistics cards,
 * and what the edit and delete actions send to the store.
 */
module StaffManagement {
  import opened Wrappers
  import opened Seqs
  import opened Types
  import opened Store

  function InDepartment(d: Department): Staff -> bool {
    (s: Staff) => s.info.department == d
  }

  /**
   * `getDepartmentStats`: `staff.reduce((acc, s) => { acc[s.department] =
   * (acc[s.department] || 0) + 1; ... }, {})`, folding from the front.
   */
  function DepartmentStats(staff: seq<Staff>): map<Department, nat>
    decreases |staff|
  {
    if |staff| == 0 then map[]
    else
      var acc := DepartmentStats(staff[..|staff| - 1]);
      var d := staff[|staff| - 1].info.department;
      acc[d := Shown(acc, d) + 1]
  }

  /** `departmentStats[dept] || 0`: what the department tile shows. */
  function Shown(stats: map<Department, nat>, d: Department): nat {
    if d in stats then stats[d] else 0
  }

  /**
   * Each department's count is the number of its members, and a department
   * is in the dictionary exactly when it has members.
   */
  lemma {:induction false} DepartmentStatsCounts(staff: seq<Staff>, d: Department)
    ensures Shown(DepartmentStats(staff), d) == Count(staff, InDepartment(d))
    ensures d in DepartmentStats(staff) <==> Count(staff, InDepartment(d)) > 0
    decreases |staff|
  {
    if |staff| > 0 {
      var front := staff[..|staff| - 1];
      var last := staff[|staff| - 1];
      DepartmentStatsCounts(front, d);
      assert staff == front + [last];
      CountSnoc(front, last, InDepartment(d));
    }
  }

  /** The sum of the tiles shown for the departments `ds`. */
  function ShownTotal(stats: map<Department, nat>, ds: seq<Department>): nat
    decreases |ds|
  {
    if |ds| == 0 then 0 else Shown(stats, ds[0]) + ShownTotal(stats, ds[1..])
  }

  /** How often `d` occurs in `ds`. */
  function Occurrences(ds: seq<Department>, d: Department): nat
    decreases |ds|
  {
    if |ds| == 0 then 0 else (if ds[0] == d then 1 else 0) + Occurrences(ds[1..], d)
  }

  lemma {:induction false} ShownTotalBump(stats: map<Department, nat>, d: Department, ds: seq<Department>)
    ensures ShownTotal(stats[d := Shown(stats, d) + 1], ds) == ShownTotal(stats, ds) + Occurrences(ds, d)
    decreases |ds|
  {
    if |ds| > 0 {
      ShownTotalBump(stats, d, ds[1..]);
    }
  }

  lemma {:induction false} NoTiles(ds: seq<Department>)
    ensures ShownTotal(map[], ds) == 0
    decreases |ds|
  {
    if |ds| > 0 {
      NoTiles(ds[1..]);
    }
  }

  /** A value of a list without repeats occurs in it once. */
  lemma {:induction false} DistinctOnce(ds: seq<Department>, d: Department)
    requires forall i, j :: 0 <= i < j < |ds| ==> ds[i] != ds[j]
    requires d in ds
    ensures Occurrences(ds, d) == 1
    decreases |ds|
  {
    if ds[0] == d {
      AbsentNone(ds[1..], d);
    } else {
      DistinctOnce(ds[1..], d);
    }
  }

  lemma {:induction false} AbsentNone(ds: seq<Department>, d: Department)
    requires d !in ds
    ensures Occurrences(ds, d) == 0
    decreases |ds|
  {
    if |ds| > 0 {
      AbsentNone(ds[1..], d);
    }
  }

  /** `Departments` lists every department exactly once. */
  lemma DepartmentsOnce(d: Department)
    ensures Occurrences(Departments, d) == 1
  {
    DepartmentsComplete(d);
    DistinctOnce(Departments, d);
  }

  /** The tiles of a list naming every department once add up to the number of staff. */
  lemma {:induction false} TilesSum(staff: seq<Staff>, ds: seq<Department>)
    requires forall d :: Occurrences(ds, d) == 1
    ensures ShownTotal(DepartmentStats(staff), ds) == |staff|
    decreases |staff|
  {
    if |staff| == 0 {
      NoTiles(ds);
    } else {
      var front := staff[..|staff| - 1];
      var d := staff[|staff| - 1].info.department;
      TilesSum(front, ds);
      assert Occurrences(ds, d) == 1;
      assert DepartmentStats(staff) == DepartmentStats(front)[d := Shown(DepartmentStats(front), d) + 1];
      ShownTotalBump(DepartmentStats(front), d, ds);
    }
  }

  /** The eight department tiles add up to the number of staff. */
  lemma DepartmentTilesSum(staff: seq<Staff>)
    ensures ShownTotal(DepartmentStats(staff), Departments) == |staff|
  {
    forall d ensures Occurrences(Departments, d) == 1 {
      DepartmentsOnce(d);
    }
    TilesSum(staff, Departments);
  }

  /** The department filter's value: `''` (every department) or one department. */
  function InFilter(departmentFilter: Option<Department>): Staff -> bool {
    (s: Staff) => departmentFilter.None? || s.info.department == departmentFilter.value
  }

  /** `filteredStaff`. */
  function FilteredStaff(staff: seq<Staff>, departmentFilter: Option<Department>): (r: seq<Staff>)
    ensures departmentFilter.None? ==> r == staff
    ensures IsSubsequence(r, staff)
    ensures departmentFilter.Some? ==>
      (forall i :: 0 <= i < |r| ==> r[i].info.department == departmentFilter.value) &&
      (forall i :: 0 <= i < |staff| && staff[i].info.department == departmentFilter.value ==> staff[i] in r)
  {
    FilterIsSubsequence(staff, InFilter(departmentFilter));
    if departmentFilter.None? then
      FilterAll(staff, InFilter(departmentFilter));
      Filter(staff, InFilter(departmentFilter))
    else
      Filter(staff, InFilter(departmentFilter))
  }

  /** A department's filtered list is as long as its tile says. */
  lemma FilterMatchesTile(staff: seq<Staff>, d: Department)
    ensures |FilteredStaff(staff, Some(d))| == Shown(DepartmentStats(staff), d)
  {
    DepartmentStatsCounts(staff, d);
    FilterSame(staff, InFilter(Some(d)), InDepartment(d));
  }

  function IsFullTime(s: Staff): bool { s.info.employmentType == FullTime }
  function IsPartTime(s: Staff): bool { s.info.employmentType == PartTime }

  /** The Full-time and Part-time cards never add up to more than the total card. */
  lemma EmploymentCardsBounded(staff: seq<Staff>)
    ensures Count(staff, IsFullTime) + Count(staff, IsPartTime) <= |staff|
  {
    CountDisjoint(staff, IsFullTime, IsPartTime);
  }

  /** `handleEditStaff`: the form data with the selected member's id and avatar; nothing without a selection. */
  function EditStaff(selected: Option<Staff>, data: StaffInfo): (r: Option<Staff>)
    ensures r.None? <==> selected.None?
    ensures r.Some? ==>
      r.value.id == selected.value.id && r.value.avatarUrl == selected.value.avatarUrl && r.value.info == data
  {
    match selected
    case None => None
    case Some(s) => Some(Staff(s.id, s.avatarUrl, data))
  }

  /** Saving an edit of a listed member changes that member's fields and nothing else. */
  lemma EditChangesOnlyThatMember(staff: seq<Staff>, i: int, data: StaffInfo)
    requires 0 <= i < |staff| && KeysDistinct(staff, StaffId)
    ensures var r := ReplaceKey(staff, StaffId, EditStaff(Some(staff[i]), data).value);
      |r| == |staff| && r[i] == staff[i].(info := data) &&
      forall j :: 0 <= j < |staff| && j != i ==> r[j] == staff[j]
  {
    var edited := EditStaff(Some(staff[i]), data).value;
    assert edited == staff[i].(info := data);
    assert forall j :: 0 <= j < |staff| && j != i ==> StaffId(staff[j]) != StaffId(edited);
  }

  /** `handleDeleteStaff`: the selected member's id; nothing without a selection. */
  function DeleteStaffRequest(selected: Option<Staff>): (r: Option<string>)
    ensures r.None? <==> selected.None?
    ensures r.Some? ==> r.value == selected.value.id
  {
    match selected
    case None => None
    case Some(s) => Some(s.id)
  }
}

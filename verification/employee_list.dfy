/** The selection handlers of the employee list: select all or none, toggle
    one employee, and find the payslip shown for an employee. Selections are
    lists of employee IDs. */
module EmployeeList {
  import opened Wrappers
  import opened Seqs
  import opened EmployeeTypes

  /** `employees.map(emp => emp.employeeId)`. */
  function EmployeeIds(employees: seq<Employee>): (ids: seq<string>)
    ensures |ids| == |employees|
    ensures forall i :: 0 <= i < |ids| ==> ids[i] == employees[i].employeeId
  {
    seq(|employees|, i requires 0 <= i < |employees| => employees[i].employeeId)
  }

  /** `handleSelectAll`: clears the selection when it is as long as the
      employee list, and otherwise selects every employee's ID, in employee
      order. Only the lengths are compared, not the contents. */
  function SelectAll(selected: seq<string>, employees: seq<Employee>): (r: seq<string>)
    ensures |selected| == |employees| ==> r == []
    ensures |selected| != |employees| ==>
      |r| == |employees| && forall i :: 0 <= i < |employees| ==> r[i] == employees[i].employeeId
  {
    if |selected| == |employees| then []
    else
      EmployeeIds(employees)
  }

  /** Two presses of "select all" from a partial selection end with nothing
      selected. */
  lemma SelectAllTwice(selected: seq<string>, employees: seq<Employee>)
    requires |selected| != |employees|
    ensures SelectAll(SelectAll(selected, employees), employees) == []
  {
  }

  /** A selection of the right length whose contents differ from the
      employee IDs is still cleared, because only the lengths are compared. */
  lemma SelectAllComparesLengths(selected: seq<string>, employees: seq<Employee>)
    requires |selected| == |employees| && selected != EmployeeIds(employees)
    ensures SelectAll(selected, employees) == []
  {
  }

  /** `handleEmployeeToggle(id)`: removes every occurrence of a selected id,
      keeping the others in order, or appends an unselected one. */
  function Toggle(selected: seq<string>, id: string): (r: seq<string>)
    ensures id in r <==> id !in selected
    ensures forall x :: x != id ==> (x in r <==> x in selected)
    ensures id in selected ==>
      IsSubsequence(r, selected) && |r| == |selected| - multiset(selected)[id]
    ensures id !in selected ==> r == selected + [id]
  {
    if id in selected then
      var r := Filter(selected, x => x != id);
      FilterSize(selected, id);
      r
    else selected + [id]
  }

  /** Dropping one value shortens a list by its number of occurrences. */
  lemma {:induction false} FilterSize(s: seq<string>, id: string)
    ensures |Filter(s, x => x != id)| == |s| - multiset(s)[id]
    decreases |s|
  {
    if s != [] {
      assert s == [s[0]] + s[1..];
      assert multiset(s)[id] == multiset(s[1..])[id] + (if s[0] == id then 1 else 0);
      FilterSize(s[1..], id);
    }
  }

  /** Toggling an unselected id twice restores the selection exactly. */
  lemma ToggleTwiceRestores(selected: seq<string>, id: string)
    requires id !in selected
    ensures Toggle(Toggle(selected, id), id) == selected
  {
    var once := selected + [id];
    assert Toggle(selected, id) == once;
    FilterAppend(selected, [id], x => x != id);
    FilterKeepsAll(selected, x => x != id);
    assert Filter([id], x => x != id) == [];
  }

  /** `getPayslipForEmployee(id)`: the first payslip for that employee. */
  function PayslipFor(payslips: seq<Payslip>, id: string): (r: Option<Payslip>)
    ensures r.Some? ==> r.value.employee.employeeId == id && r.value in payslips
    ensures r.None? <==> forall i :: 0 <= i < |payslips| ==> payslips[i].employee.employeeId != id
  {
    Find(payslips, (p: Payslip) => p.employee.employeeId == id)
  }

  /** When several payslips carry the id, the earliest one is returned. */
  lemma PayslipForIsFirst(payslips: seq<Payslip>, id: string, i: nat)
    requires i < |payslips| && payslips[i].employee.employeeId == id
    requires forall j :: 0 <= j < i ==> payslips[j].employee.employeeId != id
    ensures PayslipFor(payslips, id) == Some(payslips[i])
  {
    var p := (q: Payslip) => q.employee.employeeId == id;
    var found := PayslipFor(payslips, id);
    assert p(payslips[i]);
    var k :| 0 <= k < |payslips| && payslips[k] == found.value
             && forall j :: 0 <= j < k ==> !p(payslips[j]);
    assert k == i;
  }
}

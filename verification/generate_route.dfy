/** The payslip API: `POST` computes payslips for all or some employees of
    the sheet, `GET` computes one. The sheet fetch is an input sequence, the
    "spreadsheet configured" environment check a flag, and the JSON reply a
    datatype. */
module GenerateRoute {
  import opened Wrappers
  import opened Text
  import opened Seqs
  import opened EmployeeTypes
  import opened PayslipCalculator
  import opened Batch

  // ---------------------------------------------------------------------------
  // POST

  /** The JSON body. An absent `employeeIds` reads as the empty list. */
  datatype GenerateRequest = GenerateRequest(
    month: Option<string>,
    year: Option<int>,
    workingDays: Option<real>,
    actualWorkingDays: Option<real>,
    employeeIds: Option<seq<string>>
  )

  datatype GenerateResponse =
    | MissingMonthOrYear
    | NoSpreadsheet
    | NoEmployees
    | NoMatchingEmployees
    | AllFailed(failedEmployees: seq<Failure>)
    | Succeeded(data: seq<Payslip>, count: nat, partialFailures: Option<seq<Failure>>,
                summary: Summary)

  /** The HTTP status of each reply. */
  function GenerateStatus(r: GenerateResponse): int {
    match r
    case MissingMonthOrYear => 400
    case NoSpreadsheet => 400
    case NoEmployees => 404
    case NoMatchingEmployees => 404
    case AllFailed(_) => 400
    case Succeeded(_, _, _, _) => 200
  }

  /** Month and year are both given (a year of 0 is falsy). */
  predicate PeriodGiven(req: GenerateRequest) {
    Truthy(req.month) && NumberGiven(req.year)
  }

  /** The employees the request asks for: all of them for an empty ID list,
      otherwise those whose `employeeId` is listed, in sheet order. */
  function Selection(employees: seq<Employee>, ids: seq<string>): (sel: seq<Employee>)
    ensures ids == [] ==> sel == employees
    ensures ids != [] ==> forall e :: e in sel <==> e in employees && e.employeeId in ids
    ensures ids != [] ==>
      forall e :: multiset(sel)[e] == if e.employeeId in ids then multiset(employees)[e] else 0
    ensures IsSubsequence(sel, employees)
  {
    if |ids| > 0 then Filter(employees, (e: Employee) => e.employeeId in ids)
    else SubsequenceOfItself(employees); employees
  }

  /** The number of failures reported alongside generated payslips. */
  function FailedCount(failed: Option<seq<Failure>>): nat {
    match failed
    case None => 0
    case Some(fs) => |fs|
  }

  /** `POST /api/payslips/generate`. */
  function Generate(req: GenerateRequest, configured: bool, employees: seq<Employee>)
    : (r: GenerateResponse)
    ensures r.MissingMonthOrYear? <==> !PeriodGiven(req)
    ensures r.NoSpreadsheet? <==> PeriodGiven(req) && !configured
    ensures r.NoEmployees? <==> PeriodGiven(req) && configured && employees == []
    ensures r.NoMatchingEmployees? <==>
      PeriodGiven(req) && configured && employees != []
      && Selection(employees, req.employeeIds.GetOr([])) == []
    ensures r.AllFailed? ==>
      |r.failedEmployees| == |Selection(employees, req.employeeIds.GetOr([]))|
    ensures r.Succeeded? ==>
      && r.count == |r.data| > 0
      && r.count + FailedCount(r.partialFailures) == |Selection(employees, req.employeeIds.GetOr([]))|
      && (r.partialFailures.Some? ==> r.partialFailures.value != [])
      && r.summary == Totals(r.data)
  {
    if !PeriodGiven(req) then MissingMonthOrYear
    else if !configured then NoSpreadsheet
    else if employees == [] then NoEmployees
    else
      var sel := Selection(employees, req.employeeIds.GetOr([]));
      if sel == [] then NoMatchingEmployees
      else
        var (payslips, failed) := Partition(sel, req.month.value, req.year.value,
                                            DaysOrDefault(req.workingDays),
                                            DaysOrDefault(req.actualWorkingDays));
        if payslips == [] then AllFailed(failed)
        else Succeeded(payslips, |payslips|, if failed != [] then Some(failed) else None,
                       Totals(payslips))
  }

  /** The request reaches the per-employee loop with this non-empty
      selection. */
  predicate ReachesLoop(req: GenerateRequest, configured: bool, employees: seq<Employee>) {
    PeriodGiven(req) && configured && employees != []
    && Selection(employees, req.employeeIds.GetOr([])) != []
  }

  /** Once the loop is reached, the reply is a failure listing exactly when
      every selected employee is rejected; otherwise the payslips are those
      of the employees that pass validation, in sheet order. */
  lemma GenerateOutcome(req: GenerateRequest, configured: bool, employees: seq<Employee>)
    requires ReachesLoop(req, configured, employees)
    ensures var sel := Selection(employees, req.employeeIds.GetOr([]));
      var wd, awd := DaysOrDefault(req.workingDays), DaysOrDefault(req.actualWorkingDays);
      var r := Generate(req, configured, employees);
      && (r.AllFailed? <==> forall i :: 0 <= i < |sel| ==> !Valid(sel[i], wd, awd))
      && (r.Succeeded? ==>
            wd > 0.0
            && r.data == CalculateAll(Filter(sel, ValidIn(wd, awd)), req.month.value, req.year.value, wd, awd))
      && (r.Succeeded? ==>
            (r.partialFailures.None? <==> forall i :: 0 <= i < |sel| ==> Valid(sel[i], wd, awd)))
      && (r.Succeeded? && r.partialFailures.Some? ==>
            r.partialFailures.value == FailuresOf(Filter(sel, RejectedIn(wd, awd)), wd, awd))
      && (r.AllFailed? ==> r.failedEmployees == FailuresOf(Filter(sel, RejectedIn(wd, awd)), wd, awd))
  {
    var sel := Selection(employees, req.employeeIds.GetOr([]));
    var wd, awd := DaysOrDefault(req.workingDays), DaysOrDefault(req.actualWorkingDays);
    var month, year := req.month.value, req.year.value;
    NoPayslipsIffAllRejected(sel, month, year, wd, awd);
    NoFailuresIffAllValid(sel, month, year, wd, awd);
    FailuresAreRejectedEmployees(sel, month, year, wd, awd);
    if wd > 0.0 {
      PartitionIsFilter(sel, month, year, wd, awd);
    } else {
      BadDaysRejectAll(sel, month, year, wd, awd);
    }
  }

  /** Absent day counts default to 30 each. */
  lemma DefaultDays(req: GenerateRequest, configured: bool, employees: seq<Employee>)
    requires ReachesLoop(req, configured, employees)
    requires req.workingDays.None? && req.actualWorkingDays.None?
    ensures var r := Generate(req, configured, employees);
      r.Succeeded? ==> forall i :: 0 <= i < |r.data| ==>
        r.data[i].workingDays == 30.0 && r.data[i].actualWorkingDays == 30.0
  {
    var sel := Selection(employees, req.employeeIds.GetOr([]));
    var r := Generate(req, configured, employees);
    if r.Succeeded? {
      var valid := Filter(sel, ValidIn(30.0, 30.0));
      PartitionIsFilter(sel, req.month.value, req.year.value, 30.0, 30.0);
      assert r.data == CalculateAll(valid, req.month.value, req.year.value, 30.0, 30.0);
      forall i | 0 <= i < |r.data|
        ensures r.data[i].workingDays == 30.0 && r.data[i].actualWorkingDays == 30.0
      {
        assert r.data[i] == CalculatePayslip(valid[i], req.month.value, req.year.value, 30.0, 30.0);
      }
    }
  }

  /** The summary adds up the generated payslips only, and its net total is
      within one rupee per payslip of gross minus deductions. */
  lemma SummaryBalances(req: GenerateRequest, configured: bool, employees: seq<Employee>)
    requires ReachesLoop(req, configured, employees)
    ensures var r := Generate(req, configured, employees);
      r.Succeeded? ==>
        var s := r.summary;
        -(r.count as real) <= s.totalNetSalary - (s.totalGrossEarnings - s.totalDeductions) <= r.count as real
  {
    var r := Generate(req, configured, employees);
    if r.Succeeded? {
      var sel := Selection(employees, req.employeeIds.GetOr([]));
      var wd, awd := DaysOrDefault(req.workingDays), DaysOrDefault(req.actualWorkingDays);
      GenerateOutcome(req, configured, employees);
      var valid := Filter(sel, ValidIn(wd, awd));
      TotalsNearlyBalance(valid, req.month.value, req.year.value, wd, awd);
    }
  }

  // ---------------------------------------------------------------------------
  // GET

  /** The query string parameters, each absent or a string. */
  datatype PayslipQuery = PayslipQuery(
    month: Option<string>,
    year: Option<string>,
    employeeId: Option<string>,
    workingDays: Option<string>,
    actualWorkingDays: Option<string>
  )

  datatype PayslipResponse =
    | MissingParameters
    | NoSpreadsheetForQuery
    | EmployeeNotFound
    | Found(data: Payslip)

  function PayslipStatus(r: PayslipResponse): int {
    match r
    case MissingParameters => 400
    case NoSpreadsheetForQuery => 400
    case EmployeeNotFound => 404
    case Found(_) => 200
  }

  predicate QueryGiven(q: PayslipQuery) {
    Truthy(q.month) && Truthy(q.year) && Truthy(q.employeeId)
  }

  /** `employees.find(emp => emp.employeeId === id)`. */
  function EmployeeById(employees: seq<Employee>, id: string): Option<Employee> {
    Find(employees, (e: Employee) => e.employeeId == id)
  }

  /** The query reaches the calculator: the parameters are present, the
      spreadsheet is configured and some employee has the requested ID. */
  predicate QueryReachesCalculator(q: PayslipQuery, configured: bool, employees: seq<Employee>) {
    QueryGiven(q) && configured && EmployeeById(employees, q.employeeId.value).Some?
  }

  /** The day counts and year the calculator is given, parsed with `parse`
      (`parseInt`; `None` stands for NaN), the days defaulting to "30". */
  predicate QueryNumbersParse(q: PayslipQuery, parse: string -> Option<int>) {
    parse(OrElse(q.workingDays, "30")).Some? && parse(OrElse(q.workingDays, "30")).value != 0
    && parse(OrElse(q.actualWorkingDays, "30")).Some?
    && q.year.Some? && parse(q.year.value).Some?
  }

  /** `GET /api/payslips/generate?month&year&employeeId&workingDays&actualWorkingDays`. */
  function GetPayslip(q: PayslipQuery, parse: string -> Option<int>, configured: bool,
                      employees: seq<Employee>): (r: PayslipResponse)
    requires QueryReachesCalculator(q, configured, employees) ==> QueryNumbersParse(q, parse)
    ensures r.MissingParameters? <==> !QueryGiven(q)
    ensures r.NoSpreadsheetForQuery? <==> QueryGiven(q) && !configured
    ensures r.EmployeeNotFound? <==>
      QueryGiven(q) && configured
      && forall i :: 0 <= i < |employees| ==> employees[i].employeeId != q.employeeId.value
    ensures r.Found? ==>
      r.data.employee.employeeId == q.employeeId.value && r.data.month == q.month.value
  {
    if !QueryGiven(q) then MissingParameters
    else if !configured then NoSpreadsheetForQuery
    else
      match EmployeeById(employees, q.employeeId.value)
      case None => EmployeeNotFound
      case Some(e) =>
        var wd := parse(OrElse(q.workingDays, "30")).value as real;
        var awd := parse(OrElse(q.actualWorkingDays, "30")).value as real;
        Found(CalculatePayslip(e, q.month.value, parse(q.year.value).value, wd, awd))
  }

  /** The payslip is computed for the first employee in sheet order whose
      ID matches, even when later rows share that ID. */
  lemma GetUsesFirstMatch(q: PayslipQuery, parse: string -> Option<int>, configured: bool,
                          employees: seq<Employee>, i: nat)
    requires QueryGiven(q) && configured
    requires i < |employees| && employees[i].employeeId == q.employeeId.value
    requires forall j :: 0 <= j < i ==> employees[j].employeeId != q.employeeId.value
    requires QueryNumbersParse(q, parse)
    ensures GetPayslip(q, parse, configured, employees)
         == Found(CalculatePayslip(employees[i], q.month.value, parse(q.year.value).value,
                                   parse(OrElse(q.workingDays, "30")).value as real,
                                   parse(OrElse(q.actualWorkingDays, "30")).value as real))
  {
    var p := (e: Employee) => e.employeeId == q.employeeId.value;
    var found := EmployeeById(employees, q.employeeId.value);
    assert p(employees[i]);
    var k :| 0 <= k < |employees| && employees[k] == found.value
             && forall j :: 0 <= j < k ==> !p(employees[j]);
    assert k == i;
  }
}

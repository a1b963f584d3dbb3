/** `POST /api/payslips/bulk-pdf`: the same validation and partition as the
    generation handler over an explicit, non-empty ID list, answered with one
    HTML document whose file name and count headers are modelled here. */
module BulkPdfRoute {
  import opened Wrappers
  import opened Text
  import opened Seqs
  import opened EmployeeTypes
  import opened Batch

  /** The JSON body. `employeeIds` is absent when it is missing or not an
      array. */
  datatype BulkRequest = BulkRequest(
    employeeIds: Option<seq<string>>,
    month: Option<string>,
    year: Option<int>,
    workingDays: Option<real>,
    actualWorkingDays: Option<real>
  )

  datatype BulkResponse =
    | MissingParameters
    | NoSpreadsheet
    | NoMatchingEmployees
    | AllFailed(failedEmployees: seq<Failure>)
    | Document(payslips: seq<Payslip>, filename: string,
               generatedCount: string, failedCount: string)

  function BulkStatus(r: BulkResponse): int {
    match r
    case MissingParameters => 400
    case NoSpreadsheet => 400
    case NoMatchingEmployees => 404
    case AllFailed(_) => 400
    case Document(_, _, _, _) => 200
  }

  /** A non-empty ID array, a month and a year are all given. */
  predicate RequestGiven(req: BulkRequest) {
    req.employeeIds.Some? && req.employeeIds.value != []
    && Truthy(req.month) && NumberGiven(req.year)
  }

  /** The listed employees in sheet order; an empty list selects nobody. */
  function Listed(employees: seq<Employee>, ids: seq<string>): (sel: seq<Employee>)
    ensures forall e :: e in sel <==> e in employees && e.employeeId in ids
    ensures forall e :: multiset(sel)[e] == if e.employeeId in ids then multiset(employees)[e] else 0
    ensures IsSubsequence(sel, employees)
  {
    Filter(employees, (e: Employee) => e.employeeId in ids)
  }

  /** `name` reads `payslips-<count>-employees-<month>-<year>.html`, with the
      count written in decimal so that it can be read back from the digits
      after the first dash. */
  predicate NamesBatch(name: string, count: nat, month: string, year: int) {
    var digits, ys := NatToString(count), IntToString(year);
    && |name| == 26 + |digits| + |month| + |ys|
    && name[..9] == "payslips-"
    && IsDigits(name[9..9 + |digits|]) && DigitsValue(name[9..9 + |digits|]) == count
    && name[9 + |digits|..20 + |digits|] == "-employees-"
    && name[20 + |digits|..20 + |digits| + |month|] == month
    && name[20 + |digits| + |month|..|name| - 5] == "-" + ys
    && name[|name| - 5..] == ".html"
  }

  /** The file name of the generated document. */
  function FileName(count: nat, month: string, year: int): (name: string)
    ensures NamesBatch(name, count, month, year)
  {
    var digits := NatToString(count);
    var name := "payslips-" + digits + "-employees-" + month + "-" + IntToString(year) + ".html";
    FileNameShape(digits, month, IntToString(year), name);
    NatToStringRoundTrip(count);
    name
  }

  /** The pieces of the file name, read back by position. */
  lemma FileNameShape(digits: string, month: string, ys: string, name: string)
    requires name == "payslips-" + digits + "-employees-" + month + "-" + ys + ".html"
    ensures |name| == 26 + |digits| + |month| + |ys|
    ensures name[..9] == "payslips-" && name[9..9 + |digits|] == digits
    ensures name[9 + |digits|..9 + |digits| + 11] == "-employees-"
    ensures name[20 + |digits|..20 + |digits| + |month|] == month
    ensures name[20 + |digits| + |month|..|name| - 5] == "-" + ys
    ensures name[|name| - 5..] == ".html"
  {
    var head, tail := "payslips-" + digits + "-employees-" + month, "-" + ys + ".html";
    assert name == head + tail;
    HeadShape(digits, month, head);
    assert name[..9] == "payslips-" by {
      InsideLeft(head, tail, 0, 9);
    }
    assert name[9..9 + |digits|] == digits by {
      InsideLeft(head, tail, 9, 9 + |digits|);
    }
    assert name[9 + |digits|..9 + |digits| + 11] == "-employees-" by {
      InsideLeft(head, tail, 9 + |digits|, 20 + |digits|);
    }
    assert name[20 + |digits|..20 + |digits| + |month|] == month by {
      InsideLeft(head, tail, 20 + |digits|, |head|);
    }
    assert name[|head|..|name| - 5] == "-" + ys && name[|name| - 5..] == ".html" by {
      RightSlice(head, tail, 0, |tail| - 5);
      RightSlice(head, tail, |tail| - 5, |tail|);
      assert tail == ("-" + ys) + ".html";
      assert tail[..|tail| - 5] == "-" + ys;
    }
  }

  /** The part of the name before the year, read back by position. */
  lemma HeadShape(digits: string, month: string, head: string)
    requires head == "payslips-" + digits + "-employees-" + month
    ensures |head| == 20 + |digits| + |month|
    ensures head[..9] == "payslips-" && head[9..9 + |digits|] == digits
    ensures head[9 + |digits|..20 + |digits|] == "-employees-"
    ensures head[20 + |digits|..] == month
  {
    var p1 := "payslips-" + digits;
    var p2 := p1 + "-employees-";
    assert head[..9] == "payslips-" by {
      InsideLeft(p2, month, 0, 9);
      InsideLeft(p1, "-employees-", 0, 9);
      InsideLeft("payslips-", digits, 0, 9);
    }
    assert head[9..|p1|] == digits by {
      InsideLeft(p2, month, 9, |p1|);
      InsideLeft(p1, "-employees-", 9, |p1|);
      RightPart("payslips-", digits);
    }
    assert head[|p1|..|p2|] == "-employees-" by {
      InsideLeft(p2, month, |p1|, |p2|);
      RightPart(p1, "-employees-");
    }
    RightPart(p2, month);
  }

  /** A slice inside the right operand of a concatenation. */
  lemma RightSlice(a: string, b: string, i: nat, j: nat)
    requires i <= j <= |b|
    ensures (a + b)[|a| + i..|a| + j] == b[i..j]
  {
  }

  /** A slice inside the left operand of a concatenation. */
  lemma InsideLeft(a: string, b: string, i: nat, j: nat)
    requires i <= j <= |a|
    ensures (a + b)[i..j] == a[i..j]
  {
  }

  /** The right operand of a concatenation is its suffix past the left. */
  lemma RightPart(a: string, b: string)
    ensures (a + b)[|a|..] == b
    ensures (a + b)[|a|..|a| + |b|] == b
  {
  }

  /** The handler. */
  function BulkPdf(req: BulkRequest, configured: bool, employees: seq<Employee>)
    : (r: BulkResponse)
    ensures r.MissingParameters? <==> !RequestGiven(req)
    ensures r.NoSpreadsheet? <==> RequestGiven(req) && !configured
    ensures r.NoMatchingEmployees? <==>
      RequestGiven(req) && configured && Listed(employees, req.employeeIds.value) == []
    ensures r.AllFailed? ==> |r.failedEmployees| == |Listed(employees, req.employeeIds.value)|
    ensures r.Document? ==>
      && r.payslips != []
      && IsDigits(r.generatedCount) && IsDigits(r.failedCount)
      && (|r.generatedCount| > 1 ==> r.generatedCount[0] != '0')
      && (|r.failedCount| > 1 ==> r.failedCount[0] != '0')
      && DigitsValue(r.generatedCount) == |r.payslips|
      && DigitsValue(r.generatedCount) + DigitsValue(r.failedCount)
         == |Listed(employees, req.employeeIds.value)|
      && r.filename == FileName(|r.payslips|, req.month.value, req.year.value)
  {
    if !RequestGiven(req) then MissingParameters
    else if !configured then NoSpreadsheet
    else
      var sel := Listed(employees, req.employeeIds.value);
      if sel == [] then NoMatchingEmployees
      else
        var (payslips, failed) := Partition(sel, req.month.value, req.year.value,
                                            DaysOrDefault(req.workingDays),
                                            DaysOrDefault(req.actualWorkingDays));
        if payslips == [] then AllFailed(failed)
        else
          NatToStringRoundTrip(|payslips|);
          NatToStringRoundTrip(|failed|);
          Document(payslips, FileName(|payslips|, req.month.value, req.year.value),
                   NatToString(|payslips|), NatToString(|failed|))
  }

  /** The selection reaches the per-employee loop. */
  predicate ReachesLoop(req: BulkRequest, configured: bool, employees: seq<Employee>) {
    RequestGiven(req) && configured && Listed(employees, req.employeeIds.value) != []
  }

  /** An empty ID list is refused rather than read as "every employee". */
  lemma EmptyListRefused(req: BulkRequest, configured: bool, employees: seq<Employee>)
    requires req.employeeIds == Some([])
    ensures BulkPdf(req, configured, employees) == MissingParameters
    ensures BulkStatus(BulkPdf(req, configured, employees)) == 400
  {
  }

  /** Once the loop is reached: no document exactly when every listed
      employee is rejected, and otherwise the document holds the payslips of
      the employees that pass validation, in sheet order. */
  lemma BulkOutcome(req: BulkRequest, configured: bool, employees: seq<Employee>)
    requires ReachesLoop(req, configured, employees)
    ensures var sel := Listed(employees, req.employeeIds.value);
      var wd, awd := DaysOrDefault(req.workingDays), DaysOrDefault(req.actualWorkingDays);
      var r := BulkPdf(req, configured, employees);
      && (r.AllFailed? <==> forall i :: 0 <= i < |sel| ==> !Valid(sel[i], wd, awd))
      && (r.Document? ==>
            wd > 0.0
            && r.payslips == CalculateAll(Filter(sel, ValidIn(wd, awd)), req.month.value, req.year.value, wd, awd))
      && (r.AllFailed? ==> r.failedEmployees == FailuresOf(Filter(sel, RejectedIn(wd, awd)), wd, awd))
  {
    var sel := Listed(employees, req.employeeIds.value);
    var wd, awd := DaysOrDefault(req.workingDays), DaysOrDefault(req.actualWorkingDays);
    var month, year := req.month.value, req.year.value;
    NoPayslipsIffAllRejected(sel, month, year, wd, awd);
    FailuresAreRejectedEmployees(sel, month, year, wd, awd);
    if wd > 0.0 {
      PartitionIsFilter(sel, month, year, wd, awd);
    } else {
      BadDaysRejectAll(sel, month, year, wd, awd);
    }
  }
}

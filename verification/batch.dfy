/** The per-employee validation and the success/failure partition shared by
    the payslip-generation and bulk-document handlers, and the summary totals
    the generation handler reports. */
module Batch {
  import opened Wrappers
  import opened Text
  import opened Seqs
  import opened EmployeeTypes
  import opened PayslipCalculator

  // ---------------------------------------------------------------------------
  // Request fields

  /** JavaScript truthiness of an optional numeric field: present and not 0. */
  predicate NumberGiven(n: Option<int>) {
    n.Some? && n.value != 0
  }

  /** A destructuring default `x = 30`: applies only when the field is absent. */
  function DaysOrDefault(days: Option<real>): real {
    days.GetOr(30.0)
  }

  // ---------------------------------------------------------------------------
  // Validation

  /** One reason an employee's payslip is not generated. */
  datatype ValidationError =
    | MissingName
    | InvalidBasicSalary(basicSalary: real)
    | InvalidWorkingDays(workingDays: real)
    | InvalidActualWorkingDays(actualWorkingDays: real)

  /** The employee and the day counts pass every check. */
  predicate Valid(e: Employee, workingDays: real, actualWorkingDays: real) {
    !IsBlank(e.name) && e.basicSalary > 0.0 && workingDays > 0.0 && actualWorkingDays > 0.0
  }

  /** The checks run before a payslip is computed, in the order they are
      reported: the name is missing or only whitespace, the basic salary is
      not positive, either day count is not positive. */
  function ValidationErrors(e: Employee, workingDays: real, actualWorkingDays: real)
    : (errs: seq<ValidationError>)
    ensures MissingName in errs <==> IsBlank(e.name)
    ensures InvalidBasicSalary(e.basicSalary) in errs <==> e.basicSalary <= 0.0
    ensures InvalidWorkingDays(workingDays) in errs <==> workingDays <= 0.0
    ensures InvalidActualWorkingDays(actualWorkingDays) in errs <==> actualWorkingDays <= 0.0
    ensures errs == [] <==> Valid(e, workingDays, actualWorkingDays)
  {
    (if e.name == [] || Trim(e.name) == [] then [MissingName] else [])
    + (if e.basicSalary <= 0.0 then [InvalidBasicSalary(e.basicSalary)] else [])
    + (if workingDays <= 0.0 then [InvalidWorkingDays(workingDays)] else [])
    + (if actualWorkingDays <= 0.0 then [InvalidActualWorkingDays(actualWorkingDays)] else [])
  }

  /** A rejected employee: the name it was reported under and why. */
  datatype Failure = Failure(name: string, errors: seq<ValidationError>)

  /** What happens to one selected employee. */
  datatype Outcome = Generated(payslip: Payslip) | Rejected(failure: Failure)

  /** One pass of the loop body: validate, then compute. A negative net
      salary is only warned about, so it does not reject. */
  function Process(e: Employee, month: string, year: int,
                   workingDays: real, actualWorkingDays: real): (o: Outcome)
    ensures o.Generated? <==> Valid(e, workingDays, actualWorkingDays)
    ensures o.Rejected? ==> o.failure.name == e.name && o.failure.errors != []
  {
    var errs := ValidationErrors(e, workingDays, actualWorkingDays);
    if errs != [] then Rejected(Failure(e.name, errs))
    else Generated(CalculatePayslip(e, month, year, workingDays, actualWorkingDays))
  }

  // ---------------------------------------------------------------------------
  // Partition

  /** The loop over the selection: payslips and failures, each in selection
      order. */
  function Partition(sel: seq<Employee>, month: string, year: int,
                     workingDays: real, actualWorkingDays: real)
    : (r: (seq<Payslip>, seq<Failure>))
    ensures |r.0| + |r.1| == |sel|
    decreases |sel|
  {
    if sel == [] then ([], [])
    else
      var (ps, fs) := Partition(sel[..|sel| - 1], month, year, workingDays, actualWorkingDays);
      var o := Process(sel[|sel| - 1], month, year, workingDays, actualWorkingDays);
      assert forall i :: 0 <= i < |sel| - 1 ==> sel[..|sel| - 1][i] == sel[i];
      if o.Generated? then (ps + [o.payslip], fs) else (ps, fs + [o.failure])
  }

  /** The payslip computed for each employee, in order. */
  function CalculateAll(es: seq<Employee>, month: string, year: int,
                        workingDays: real, actualWorkingDays: real): (ps: seq<Payslip>)
    requires workingDays != 0.0
    ensures |ps| == |es|
    ensures forall i :: 0 <= i < |es| ==>
      ps[i] == CalculatePayslip(es[i], month, year, workingDays, actualWorkingDays)
  {
    seq(|es|, i requires 0 <= i < |es| =>
      CalculatePayslip(es[i], month, year, workingDays, actualWorkingDays))
  }

  function ValidIn(workingDays: real, actualWorkingDays: real): Employee -> bool {
    e => Valid(e, workingDays, actualWorkingDays)
  }

  /** A property holds of every element exactly when it holds of every
      element but the last, and of the last. */
  lemma AllOfSnoc(s: seq<Employee>, init: seq<Employee>, p: Employee -> bool)
    requires s != [] && init == s[..|s| - 1]
    ensures (forall i :: 0 <= i < |s| ==> p(s[i]))
        <==> (forall i :: 0 <= i < |init| ==> p(init[i])) && p(s[|s| - 1])
  {
    assert forall i :: 0 <= i < |init| ==> init[i] == s[i];
  }

  /** The partition of a selection extended by one employee. */
  lemma PartitionStep(sel: seq<Employee>, month: string, year: int,
                      workingDays: real, actualWorkingDays: real)
    requires sel != []
    ensures var r := Partition(sel, month, year, workingDays, actualWorkingDays);
      var s := Partition(sel[..|sel| - 1], month, year, workingDays, actualWorkingDays);
      var last := sel[|sel| - 1];
      if Valid(last, workingDays, actualWorkingDays) then
        r == (s.0 + [CalculatePayslip(last, month, year, workingDays, actualWorkingDays)], s.1)
      else
        r == (s.0, s.1 + [Failure(last.name, ValidationErrors(last, workingDays, actualWorkingDays))])
  {
  }

  lemma CalculateAllAppend(es: seq<Employee>, e: Employee, month: string, year: int,
                           workingDays: real, actualWorkingDays: real)
    requires workingDays != 0.0
    ensures CalculateAll(es + [e], month, year, workingDays, actualWorkingDays)
         == CalculateAll(es, month, year, workingDays, actualWorkingDays)
            + [CalculatePayslip(e, month, year, workingDays, actualWorkingDays)]
  {
  }

  /** No payslip is generated exactly when every selected employee is
      rejected. */
  lemma {:induction false} NoPayslipsIffAllRejected(sel: seq<Employee>, month: string, year: int,
                                                    workingDays: real, actualWorkingDays: real)
    ensures Partition(sel, month, year, workingDays, actualWorkingDays).0 == []
        <==> forall i :: 0 <= i < |sel| ==> !Valid(sel[i], workingDays, actualWorkingDays)
    decreases |sel|
  {
    if sel != [] {
      var init, last := sel[..|sel| - 1], sel[|sel| - 1];
      NoPayslipsIffAllRejected(init, month, year, workingDays, actualWorkingDays);
      PartitionStep(sel, month, year, workingDays, actualWorkingDays);
      var none := Partition(sel, month, year, workingDays, actualWorkingDays).0 == [];
      var noneBefore := Partition(init, month, year, workingDays, actualWorkingDays).0 == [];
      assert none <==> noneBefore && !Valid(last, workingDays, actualWorkingDays);
      AllOfSnoc(sel, init, (e: Employee) => !Valid(e, workingDays, actualWorkingDays));
    }
  }

  /** No failure is reported exactly when every selected employee passes. */
  lemma {:induction false} NoFailuresIffAllValid(sel: seq<Employee>, month: string, year: int,
                                                 workingDays: real, actualWorkingDays: real)
    ensures Partition(sel, month, year, workingDays, actualWorkingDays).1 == []
        <==> forall i :: 0 <= i < |sel| ==> Valid(sel[i], workingDays, actualWorkingDays)
    decreases |sel|
  {
    if sel != [] {
      var init, last := sel[..|sel| - 1], sel[|sel| - 1];
      NoFailuresIffAllValid(init, month, year, workingDays, actualWorkingDays);
      PartitionStep(sel, month, year, workingDays, actualWorkingDays);
      var none := Partition(sel, month, year, workingDays, actualWorkingDays).1 == [];
      var noneBefore := Partition(init, month, year, workingDays, actualWorkingDays).1 == [];
      assert none <==> noneBefore && Valid(last, workingDays, actualWorkingDays);
      AllOfSnoc(sel, init, (e: Employee) => Valid(e, workingDays, actualWorkingDays));
    }
  }

  /** The payslips of the partition are exactly those of the employees that
      pass validation, in selection order. */
  lemma {:induction false} PartitionIsFilter(sel: seq<Employee>, month: string, year: int,
                                             workingDays: real, actualWorkingDays: real)
    requires workingDays > 0.0
    ensures Partition(sel, month, year, workingDays, actualWorkingDays).0
         == CalculateAll(Filter(sel, ValidIn(workingDays, actualWorkingDays)),
                         month, year, workingDays, actualWorkingDays)
    decreases |sel|
  {
    var p := ValidIn(workingDays, actualWorkingDays);
    if sel == [] {
      assert Filter(sel, p) == [];
    } else {
      var init, last := sel[..|sel| - 1], sel[|sel| - 1];
      assert sel == init + [last];
      PartitionIsFilter(init, month, year, workingDays, actualWorkingDays);
      PartitionStep(sel, month, year, workingDays, actualWorkingDays);
      var r0 := Partition(sel, month, year, workingDays, actualWorkingDays).0;
      var s0 := Partition(init, month, year, workingDays, actualWorkingDays).0;
      var fi := Filter(init, p);
      if p(last) {
        calc {
          r0;
          s0 + [CalculatePayslip(last, month, year, workingDays, actualWorkingDays)];
          { CalculateAllAppend(fi, last, month, year, workingDays, actualWorkingDays); }
          CalculateAll(fi + [last], month, year, workingDays, actualWorkingDays);
          { FilterSnoc(init, last, p); }
          CalculateAll(Filter(sel, p), month, year, workingDays, actualWorkingDays);
        }
      } else {
        FilterSnoc(init, last, p);
        assert r0 == s0;
      }
    }
  }

  /** The failure reported for each employee, in order. */
  function FailuresOf(es: seq<Employee>, workingDays: real, actualWorkingDays: real)
    : (fs: seq<Failure>)
    ensures |fs| == |es|
    ensures forall i :: 0 <= i < |es| ==>
      fs[i] == Failure(es[i].name, ValidationErrors(es[i], workingDays, actualWorkingDays))
  {
    seq(|es|, i requires 0 <= i < |es| =>
      Failure(es[i].name, ValidationErrors(es[i], workingDays, actualWorkingDays)))
  }

  lemma FailuresOfAppend(es: seq<Employee>, e: Employee, workingDays: real, actualWorkingDays: real)
    ensures FailuresOf(es + [e], workingDays, actualWorkingDays)
         == FailuresOf(es, workingDays, actualWorkingDays)
            + [Failure(e.name, ValidationErrors(e, workingDays, actualWorkingDays))]
  {
  }

  function RejectedIn(workingDays: real, actualWorkingDays: real): Employee -> bool {
    e => !Valid(e, workingDays, actualWorkingDays)
  }

  /** The failures of the partition are exactly those of the employees that
      fail validation, each with its own errors, in selection order. */
  lemma {:induction false} FailuresAreRejectedEmployees(sel: seq<Employee>, month: string, year: int,
                                                        workingDays: real, actualWorkingDays: real)
    ensures Partition(sel, month, year, workingDays, actualWorkingDays).1
         == FailuresOf(Filter(sel, RejectedIn(workingDays, actualWorkingDays)),
                       workingDays, actualWorkingDays)
    decreases |sel|
  {
    var q := RejectedIn(workingDays, actualWorkingDays);
    if sel == [] {
      assert Filter(sel, q) == [];
    } else {
      var init, last := sel[..|sel| - 1], sel[|sel| - 1];
      assert sel == init + [last];
      FailuresAreRejectedEmployees(init, month, year, workingDays, actualWorkingDays);
      PartitionStep(sel, month, year, workingDays, actualWorkingDays);
      var r1 := Partition(sel, month, year, workingDays, actualWorkingDays).1;
      var s1 := Partition(init, month, year, workingDays, actualWorkingDays).1;
      var fi := Filter(init, q);
      if q(last) {
        calc {
          r1;
          s1 + [Failure(last.name, ValidationErrors(last, workingDays, actualWorkingDays))];
          { FailuresOfAppend(fi, last, workingDays, actualWorkingDays); }
          FailuresOf(fi + [last], workingDays, actualWorkingDays);
          { FilterSnoc(init, last, q); }
          FailuresOf(Filter(sel, q), workingDays, actualWorkingDays);
        }
      } else {
        FilterSnoc(init, last, q);
        assert r1 == s1;
      }
    }
  }

  /** Invalid day counts reject every employee. */
  lemma BadDaysRejectAll(sel: seq<Employee>, month: string, year: int,
                         workingDays: real, actualWorkingDays: real)
    requires workingDays <= 0.0 || actualWorkingDays <= 0.0
    ensures var r := Partition(sel, month, year, workingDays, actualWorkingDays);
      r.0 == [] && |r.1| == |sel|
  {
  }

  // ---------------------------------------------------------------------------
  // Summary

  /** The three `reduce` sums over the generated payslips. */
  datatype Summary = Summary(totalGrossEarnings: real, totalDeductions: real, totalNetSalary: real)

  /** `payslips.reduce((sum, p) => sum + p.grossEarnings, 0)` and its two
      siblings, folded from the left. */
  function Totals(ps: seq<Payslip>): (s: Summary)
    ensures ps == [] ==> s == Summary(0.0, 0.0, 0.0)
    ensures |ps| == 1 ==> s == Summary(ps[0].grossEarnings, ps[0].totalDeductions, ps[0].netSalary)
    decreases |ps|
  {
    if ps == [] then Summary(0.0, 0.0, 0.0)
    else
      var s := Totals(ps[..|ps| - 1]);
      var p := ps[|ps| - 1];
      Summary(s.totalGrossEarnings + p.grossEarnings,
              s.totalDeductions + p.totalDeductions,
              s.totalNetSalary + p.netSalary)
  }

  /** The totals of two batches add up. */
  lemma {:induction false} TotalsAppend(a: seq<Payslip>, b: seq<Payslip>)
    ensures var s, t, u := Totals(a + b), Totals(a), Totals(b);
      && s.totalGrossEarnings == t.totalGrossEarnings + u.totalGrossEarnings
      && s.totalDeductions == t.totalDeductions + u.totalDeductions
      && s.totalNetSalary == t.totalNetSalary + u.totalNetSalary
    decreases |b|
  {
    if b == [] {
      assert a + b == a;
    } else {
      assert (a + b)[..|a + b| - 1] == a + b[..|b| - 1];
      TotalsAppend(a, b[..|b| - 1]);
    }
  }

  /** Payslips from the calculator: whatever their rounding, the total net
      salary differs from total gross minus total deductions by at most one
      rupee per payslip. */
  lemma {:induction false} TotalsNearlyBalance(es: seq<Employee>, month: string, year: int,
                                               workingDays: real, actualWorkingDays: real)
    requires workingDays != 0.0
    ensures var s := Totals(CalculateAll(es, month, year, workingDays, actualWorkingDays));
      var gap := s.totalNetSalary - (s.totalGrossEarnings - s.totalDeductions);
      -(|es| as real) <= gap <= |es| as real
    decreases |es|
  {
    if es != [] {
      var ps := CalculateAll(es, month, year, workingDays, actualWorkingDays);
      var init := es[..|es| - 1];
      assert ps[..|ps| - 1] == CalculateAll(init, month, year, workingDays, actualWorkingDays);
      TotalsNearlyBalance(init, month, year, workingDays, actualWorkingDays);
      NetWithinOneOfDifference(es[|es| - 1], month, year, workingDays, actualWorkingDays);
    }
  }
}

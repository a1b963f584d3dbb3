/** `PayslipCalculator.calculatePayslip`: pro-rates the basic salary and the
    three deductions by the worked-days ratio, derives gross, total
    deductions and net, and rounds each figure with `Math.round`. */
module PayslipCalculator {
  import opened Wrappers
  import opened EmployeeTypes

  /** `x` is a whole number of rupees. */
  predicate IsWhole(x: real) {
    x == x.Floor as real
  }

  /** `r` is what JavaScript's `Math.round` gives for `x`: the whole number
      nearest to `x`, a half going up. */
  predicate RoundsTo(x: real, r: real) {
    IsWhole(r) && r - 0.5 <= x < r + 0.5
  }

  /** `Math.round(x)`, computed as the floor of `x + 1/2`. */
  function Round(x: real): (r: real)
    ensures RoundsTo(x, r)
  {
    (x + 0.5).Floor as real
  }

  /** Only one whole number rounds from `x`. */
  lemma RoundUnique(x: real, r: real)
    requires RoundsTo(x, r)
    ensures Round(x) == r
  {
    var a := Round(x).Floor;
    var b := r.Floor;
    assert -1 < a - b < 1;
  }

  /** JavaScript `amount || 0` on an optional number: absent or zero gives 0. */
  function OrZero(amount: Option<real>): real {
    match amount
    case None => 0.0
    case Some(v) => v
  }

  /** `amount || 0` is 0 exactly when the amount is absent or 0, and
      otherwise the amount itself. */
  lemma OrZeroDefault(amount: Option<real>)
    ensures OrZero(amount) == 0.0 <==> amount.None? || amount.value == 0.0
    ensures OrZero(amount) != 0.0 ==> amount == Some(OrZero(amount))
  {
  }

  /** The four money fields of the employee record the calculator rewrites. */
  predicate SameExceptMoney(a: Employee, b: Employee) {
    a.(basicSalary := b.basicSalary, providentFund := b.providentFund,
       esi := b.esi, otherDeductions := b.otherDeductions) == b
  }

  /** The record with its four money fields replaced. */
  function WithMoney(e: Employee, basic: real, pf: real, esi: real, other: real): (s: Employee)
    ensures SameExceptMoney(s, e)
    ensures s.basicSalary == basic && s.providentFund == Some(pf)
    ensures s.esi == Some(esi) && s.otherDeductions == Some(other)
  {
    e.(basicSalary := basic, providentFund := Some(pf), esi := Some(esi), otherDeductions := Some(other))
  }

  /** The optional deduction `field` of the snapshot holds the rounded
      pro-rated `amount`. */
  predicate SnapshotHolds(field: Option<real>, amount: real) {
    field.Some? && RoundsTo(amount, field.value)
  }

  /** `calculatePayslip(employee, month, year, workingDays, actualWorkingDays)`.
      With ratio = actualWorkingDays / workingDays, every amount is multiplied
      by the ratio before rounding; gross is the pro-rated basic salary, total
      deductions the rounded sum of the unrounded pro-rated deductions, and
      net the rounded unrounded difference. The month, year and day counts are
      returned as given and every other employee field is copied unchanged. */
  function CalculatePayslip(e: Employee, month: string, year: int,
                            workingDays: real, actualWorkingDays: real): (p: Payslip)
    requires workingDays != 0.0
    ensures var ratio := actualWorkingDays / workingDays;
      var pf := OrZero(e.providentFund) * ratio;
      var esi := OrZero(e.esi) * ratio;
      var other := OrZero(e.otherDeductions) * ratio;
      && RoundsTo(e.basicSalary * ratio, p.grossEarnings)
      && RoundsTo(pf + esi + other, p.totalDeductions)
      && RoundsTo(e.basicSalary * ratio - (pf + esi + other), p.netSalary)
      && p.employee.basicSalary == p.grossEarnings
      && SnapshotHolds(p.employee.providentFund, pf)
      && SnapshotHolds(p.employee.esi, esi)
      && SnapshotHolds(p.employee.otherDeductions, other)
    ensures SameExceptMoney(p.employee, e)
    ensures p.month == month && p.year == year
    ensures p.workingDays == workingDays && p.actualWorkingDays == actualWorkingDays
  {
    var salaryRatio := actualWorkingDays / workingDays;
    var basicSalary := e.basicSalary * salaryRatio;
    var grossEarnings := basicSalary;
    var providentFund := OrZero(e.providentFund) * salaryRatio;
    var esi := OrZero(e.esi) * salaryRatio;
    var otherDeductions := OrZero(e.otherDeductions) * salaryRatio;
    var totalDeductions := providentFund + esi + otherDeductions;
    var netSalary := grossEarnings - totalDeductions;
    Payslip(
      WithMoney(e, Round(basicSalary), Round(providentFund), Round(esi), Round(otherDeductions)),
      month, year, workingDays, actualWorkingDays,
      Round(grossEarnings), Round(totalDeductions), Round(netSalary))
  }

  /** A whole number strictly between -2 and 2 is at most 1 in size. */
  lemma SmallWhole(d: real)
    requires IsWhole(d) && -2.0 < d < 2.0
    ensures -1.0 <= d <= 1.0
  {
    var k := d.Floor;
    assert -2 < k < 2;
  }

  lemma IntIsWhole(k: int)
    ensures IsWhole(k as real)
  {
  }

  lemma WholeSum(a: real, b: real)
    requires IsWhole(a) && IsWhole(b)
    ensures IsWhole(a + b) && IsWhole(a - b)
  {
    var x, y := a.Floor, b.Floor;
    assert a + b == (x + y) as real;
    IntIsWhole(x + y);
    assert a - b == (x - y) as real;
    IntIsWhole(x - y);
  }

  lemma RoundsToUnique(x: real, r1: real, r2: real)
    requires RoundsTo(x, r1) && RoundsTo(x, r2)
    ensures r1 == r2
  {
    RoundUnique(x, r1);
    RoundUnique(x, r2);
  }

  /** Rounding a whole amount leaves it unchanged. */
  lemma RoundWhole(x: real)
    requires IsWhole(x)
    ensures Round(x) == x
  {
    RoundUnique(x, x);
  }

  /** Net salary is rounded from the unrounded difference, so it can differ by
      one rupee from gross minus total deductions, never by more. */
  lemma NetWithinOneOfDifference(e: Employee, month: string, year: int,
                                 workingDays: real, actualWorkingDays: real)
    requires workingDays != 0.0
    ensures var p := CalculatePayslip(e, month, year, workingDays, actualWorkingDays);
      -1.0 <= p.netSalary - (p.grossEarnings - p.totalDeductions) <= 1.0
  {
    var p := CalculatePayslip(e, month, year, workingDays, actualWorkingDays);
    WholeSum(p.netSalary, p.grossEarnings);
    WholeSum(p.netSalary - p.grossEarnings, p.totalDeductions);
    SmallWhole(p.netSalary - p.grossEarnings + p.totalDeductions);
  }

  /** Total deductions are rounded from the unrounded sum, so they can differ
      by one rupee from the sum of the rounded snapshot deductions. */
  lemma DeductionsWithinOneOfSnapshot(e: Employee, month: string, year: int,
                                      workingDays: real, actualWorkingDays: real)
    requires workingDays != 0.0
    ensures var p := CalculatePayslip(e, month, year, workingDays, actualWorkingDays);
      var snapshot := p.employee.providentFund.value + p.employee.esi.value
                      + p.employee.otherDeductions.value;
      -1.0 <= p.totalDeductions - snapshot <= 1.0
  {
    var p := CalculatePayslip(e, month, year, workingDays, actualWorkingDays);
    var pf, esi, other := p.employee.providentFund.value, p.employee.esi.value,
                          p.employee.otherDeductions.value;
    WholeSum(pf, esi);
    WholeSum(pf + esi, other);
    WholeSum(p.totalDeductions, pf + esi + other);
    assert p.totalDeductions - (pf + esi) - other == p.totalDeductions - (pf + esi + other);
    SmallWhole(p.totalDeductions - (pf + esi) - other);
  }

  /** Amounts that only take whole rupees once for a full period. */
  predicate WholeAmounts(e: Employee) {
    && IsWhole(e.basicSalary) && IsWhole(OrZero(e.providentFund))
    && IsWhole(OrZero(e.esi)) && IsWhole(OrZero(e.otherDeductions))
  }

  /** For a full period in whole rupees nothing is pro-rated or rounded away:
      gross is the basic salary, total deductions their plain sum, and net is
      exactly gross minus total deductions. */
  lemma FullPeriodIsExact(e: Employee, month: string, year: int, days: real)
    requires days != 0.0 && WholeAmounts(e)
    ensures var p := CalculatePayslip(e, month, year, days, days);
      && p.grossEarnings == e.basicSalary
      && p.totalDeductions == OrZero(e.providentFund) + OrZero(e.esi) + OrZero(e.otherDeductions)
      && p.netSalary == p.grossEarnings - p.totalDeductions
  {
    var p := CalculatePayslip(e, month, year, days, days);
    assert days / days == 1.0;
    UnitRatioIsExact(e.basicSalary, OrZero(e.providentFund), OrZero(e.esi), OrZero(e.otherDeductions),
                     days / days, p.grossEarnings, p.totalDeductions, p.netSalary);
  }

  /** With a ratio of one, whole amounts round to themselves. */
  lemma UnitRatioIsExact(b: real, pf: real, esi: real, other: real, ratio: real,
                         gross: real, total: real, net: real)
    requires ratio == 1.0
    requires IsWhole(b) && IsWhole(pf) && IsWhole(esi) && IsWhole(other)
    requires RoundsTo(b * ratio, gross)
    requires RoundsTo(pf * ratio + esi * ratio + other * ratio, total)
    requires RoundsTo(b * ratio - (pf * ratio + esi * ratio + other * ratio), net)
    ensures gross == b && total == pf + esi + other && net == gross - total
  {
    WholeSum(pf, esi);
    WholeSum(pf + esi, other);
    WholeSum(b, pf + esi + other);
    RoundsToUnique(b, gross, b);
    RoundsToUnique(pf + esi + other, total, pf + esi + other);
    RoundsToUnique(b - (pf + esi + other), net, b - (pf + esi + other));
  }

  /** A net figure rounded from a pro-rated salary that covers the
      pro-rated deductions is non-negative. */
  lemma ProRatedNetNonNegative(b: real, pf: real, esi: real, other: real, ratio: real, n: real)
    requires ratio >= 0.0 && b >= pf + esi + other
    requires RoundsTo(b * ratio - (pf * ratio + esi * ratio + other * ratio), n)
    ensures n >= 0.0
  {
    var x := b * ratio - (pf * ratio + esi * ratio + other * ratio);
    assert x == (b - (pf + esi + other)) * ratio;
    assert x >= 0.0;
    assert n.Floor > -1;
  }

  /** A non-negative ratio and a basic salary covering the deductions give a
      non-negative net salary. */
  lemma NetNonNegative(e: Employee, month: string, year: int,
                       workingDays: real, actualWorkingDays: real)
    requires workingDays != 0.0 && actualWorkingDays / workingDays >= 0.0
    requires e.basicSalary >= OrZero(e.providentFund) + OrZero(e.esi) + OrZero(e.otherDeductions)
    ensures CalculatePayslip(e, month, year, workingDays, actualWorkingDays).netSalary >= 0.0
  {
    var p := CalculatePayslip(e, month, year, workingDays, actualWorkingDays);
    ProRatedNetNonNegative(e.basicSalary, OrZero(e.providentFund), OrZero(e.esi),
                           OrZero(e.otherDeductions), actualWorkingDays / workingDays, p.netSalary);
  }

  /** Absent deduction fields count as 0: the snapshot records zero for each
      of them, total deductions are zero and net salary equals gross. */
  lemma AbsentDeductionsCountAsZero(e: Employee, month: string, year: int,
                                    workingDays: real, actualWorkingDays: real)
    requires workingDays != 0.0
    requires e.providentFund.None? && e.esi.None? && e.otherDeductions.None?
    ensures var p := CalculatePayslip(e, month, year, workingDays, actualWorkingDays);
      && p.employee.providentFund == p.employee.esi == p.employee.otherDeductions == Some(0.0)
      && p.totalDeductions == 0.0
      && p.netSalary == p.grossEarnings
  {
    var ratio := actualWorkingDays / workingDays;
    var p := CalculatePayslip(e, month, year, workingDays, actualWorkingDays);
    var b := e.basicSalary * ratio;
    assert 0.0 * ratio == 0.0;
    assert b - (0.0 * ratio + 0.0 * ratio + 0.0 * ratio) == b;
    IntIsWhole(0);
    RoundsToUnique(0.0, p.totalDeductions, 0.0);
    RoundsToUnique(0.0, p.employee.providentFund.value, 0.0);
    RoundsToUnique(0.0, p.employee.esi.value, 0.0);
    RoundsToUnique(0.0, p.employee.otherDeductions.value, 0.0);
    RoundsToUnique(b, p.netSalary, p.grossEarnings);
  }

  /** A full month for the sample record: basic 30000 with provident fund
      1800 and ESI 200 gives gross 30000, deductions 2000 and net 28000. */
  lemma SampleFullMonth(e: Employee, month: string, year: int)
    requires e.basicSalary == 30000.0 && e.providentFund == Some(1800.0)
    requires e.esi == Some(200.0) && e.otherDeductions == Some(0.0)
    ensures var p := CalculatePayslip(e, month, year, 30.0, 30.0);
      p.grossEarnings == 30000.0 && p.totalDeductions == 2000.0 && p.netSalary == 28000.0
  {
    IntIsWhole(30000);
    IntIsWhole(1800);
    IntIsWhole(200);
    IntIsWhole(0);
    FullPeriodIsExact(e, month, year, 30.0);
  }
}

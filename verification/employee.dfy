/** The records exchanged between the sheet reader, the calculator and the
    API handlers. Optional fields are `Option`s; money is exact `real`. */
module EmployeeTypes {
  import opened Wrappers

  /** One employee as read from the sheet. `esi` is read by the calculator
      although the record interface does not declare it, so it is a field
      here. */
  datatype Employee = Employee(
    id: string,
    name: string,
    employeeId: string,
    designation: Option<string>,
    department: Option<string>,
    email: Option<string>,
    phone: Option<string>,
    dateOfJoining: Option<string>,
    basicSalary: real,
    hra: Option<real>,
    da: Option<real>,
    conveyanceAllowance: Option<real>,
    medicalAllowance: Option<real>,
    specialAllowance: Option<real>,
    providentFund: Option<real>,
    professionalTax: Option<real>,
    incomeTax: Option<real>,
    esi: Option<real>,
    otherDeductions: Option<real>,
    bankName: Option<string>,
    accountNumber: Option<string>,
    ifscCode: Option<string>
  )

  /** A computed payslip. The wall-clock `generatedDate` stamp is not part of
      the model. */
  datatype Payslip = Payslip(
    employee: Employee,
    month: string,
    year: int,
    workingDays: real,
    actualWorkingDays: real,
    grossEarnings: real,
    totalDeductions: real,
    netSalary: real
  )
}

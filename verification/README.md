# Payslip generator: a Dafny model of the payroll core

This project models the pure logic inside a Next.js payroll application. It has five parts:

- **Payslip calculator.** `calculatePayslip` pro-rates an employee's basic salary and three deductions by the ratio of actual working days to working days. It rounds every figure with JavaScript `Math.round`. Money is an exact `real`, and `Math.round(x)` is the floor of `x + 1/2`.
- **Amount in words.** `numberToWords` and `convertHundreds` spell an amount in Indian English, grouped into crores (10^7), lakhs (10^5), thousands and the last three digits, followed by " Only". The string builder is proved equal to a reference word list: the words are joined by single spaces, and each group appears only when it is non-zero. The proof covers 0 < n < 10^10.
- **Sheet row mapping.** The per-row mapping inside `getEmployees` turns one spreadsheet row into an employee record. The synthesised employee ID is a three-letter name prefix followed by the zero-padded row number, and the model proves it unique within one fetch.
- **Payslip handlers.** The `POST` and `GET` handlers of `/api/payslips/generate` and the `POST` handler of `/api/payslips/bulk-pdf` are modelled. Each is a pure function from the request, a "spreadsheet configured" flag and the fetched employees to a reply datatype. The reply covers selection, per-employee validation, the success/failure partition, summary totals, count headers and the file name.
- **Employee list.** Select-all, toggle and payslip lookup from the employee list component, over lists of employee IDs.

Files:

| File | Contents |
|---|---|
| `wrappers.dfy` | `Option` |
| `text.dfy` | JavaScript string behaviour: truthiness, `||` defaults, `trim`, words joined by spaces, decimal printing and parsing, `padStart`, `padEnd` |
| `seqs.dfy` | `filter` and `find` with order-preserving specifications |
| `employee.dfy` | the employee and payslip records |
| `payslip_calculator.dfy`, `amount_words.dfy` | the two library functions |
| `sheet_rows.dfy` | the row mapper |
| `batch.dfy` | validation, partition and totals, shared by both POST handlers |
| `generate_route.dfy`, `bulk_pdf_route.dfy` | the handlers |
| `employee_list.dfy` | the list component's handlers |

Behaviour of the code that the model keeps as written:

- **Pro-rating.** The calculator pro-rates by `actualWorkingDays / workingDays` (src/lib/payslipCalculations.ts:13). Neither day count is clamped.
- **Negative amounts.** `numberToWords` has no special case for a negative amount: it matches no branch and yields " Only" (`AmountWords.ZeroAndNegativeAmounts`).
- **Amounts of 10^10 and above.** The crore count reaches 1000, and its hundreds digit indexes past the `ones` table. JavaScript reads `undefined` there, so 10^10 is spelled "undefined Hundred Crore Only" (`AmountWords.CroreCountOverflow`).
- **`convertHundreds` takes any count.** It reads its tables without a range check; for amounts below 10^10 it only ever receives counts below 1000.
- **A negative net salary only triggers a warning.** The payslip is still kept.

## Model

| member | source | states |
|---|---|---|
| PayslipCalculator.Round | src/lib/payslipCalculations.ts:44-46 | `Math.round(x)` is the whole number r with r − ½ ≤ x < r + ½, so halves round up |
| PayslipCalculator.RoundUnique | src/lib/payslipCalculations.ts:44-46 | only one whole number satisfies that rounding relation, so any rounding that meets it is `Math.round` |
| PayslipCalculator.OrZeroDefault | src/lib/payslipCalculations.ts:22-25 | defaulting an amount with a logical or to 0 gives 0 exactly when the amount is absent or 0, and otherwise the amount itself |
| PayslipCalculator.CalculatePayslip | src/lib/payslipCalculations.ts:5-49 | with ratio = actual/working days: gross rounds from basic·ratio; total deductions round from the unrounded sum of the pro-rated PF, ESI and other deductions, with absent ones counted as 0; net rounds from the unrounded difference; the snapshot record holds the rounded pro-rated amounts; every other field, the month, the year and the day counts come back unchanged |
| PayslipCalculator.WithMoney | src/lib/payslipCalculations.ts:32-39 | the spread copy of the employee differs from the original only in the four money fields |
| PayslipCalculator.NetWithinOneOfDifference | src/lib/payslipCalculations.ts:27-46 | net salary differs from gross minus total deductions by at most one rupee |
| PayslipCalculator.DeductionsWithinOneOfSnapshot | src/lib/payslipCalculations.ts:16-46 | total deductions differ from the sum of the rounded snapshot deductions by at most one rupee |
| PayslipCalculator.FullPeriodIsExact | src/lib/payslipCalculations.ts:13-46 | for a full period with whole-rupee amounts: gross is the basic salary, total deductions are the plain sum, and net is exactly gross minus deductions |
| PayslipCalculator.UnitRatioIsExact | src/lib/payslipCalculations.ts:13-46 | with a ratio of one, whole amounts round to themselves in all three figures |
| PayslipCalculator.ProRatedNetNonNegative | src/lib/payslipCalculations.ts:13-30 | a non-negative ratio and a salary that covers the deductions round to a non-negative net |
| PayslipCalculator.NetNonNegative | src/lib/payslipCalculations.ts:13-46 | the calculator's net is non-negative when the ratio is non-negative and the basic salary covers the deductions |
| PayslipCalculator.AbsentDeductionsCountAsZero | src/lib/payslipCalculations.ts:22-30 | absent PF, ESI and other deductions are recorded as 0, total deductions are 0, and net equals gross |
| PayslipCalculator.SampleFullMonth | src/lib/payslipCalculations.ts:5-49 | basic 30000 with PF 1800 and ESI 200 over a full month gives 30000 / 2000 / 28000 |
| AmountWords.TensAndOnesAreSpacedWords | src/lib/payslipCalculations.ts:89-100 | the tens-and-ones step appends the reference words for a two-digit count, each followed by one space |
| AmountWords.HundredsPiecesAreSpacedWords | src/lib/payslipCalculations.ts:105-130 | the hundreds step followed by the tens-and-ones step appends the reference words for a three-digit count, each followed by one space |
| AmountWords.ConvertHundreds | src/lib/payslipCalculations.ts:105-132 | the result is empty or has no whitespace at either end, and a count of 0 or less gives the empty string |
| AmountWords.ConvertHundredsIsJoinedWords | src/lib/payslipCalculations.ts:105-132 | `convertHundreds(k)` for k < 1000 is the reference words of k joined by single spaces |
| AmountWords.ConvertHundredsShape | src/lib/payslipCalculations.ts:105-132 | `convertHundreds(0)` is empty; for 1..999 it is non-empty, has no space at either end, and has no two adjacent whitespace characters |
| AmountWords.GroupWordsAreWords | src/lib/payslipCalculations.ts:52-54 | every table entry the builder can reach is a non-empty word without spaces; a group has words exactly when it is non-zero |
| AmountWords.ScaledPiece | src/lib/payslipCalculations.ts:61-79 | a non-zero group followed by its scale word is written as its reference words, each followed by a space |
| AmountWords.StepIsScaled | src/lib/payslipCalculations.ts:61-79 | each crore, lakh or thousand step appends the scaled reference words of its count, and nothing when the count is zero |
| AmountWords.GroupArithmetic | src/lib/payslipCalculations.ts:61-79 | the remainders carried from step to step are the crore, lakh, thousand and last-three-digit groups of the amount |
| AmountWords.IndianWordsAreWords | src/lib/payslipCalculations.ts:58-100 | a non-zero amount below 10^10 has a non-empty list of words, none containing a space |
| AmountWords.WordPiecesAreSpacedWords | src/lib/payslipCalculations.ts:58-100 | everything `numberToWords` appends before trimming is the reference word list, each word followed by one space |
| AmountWords.NumberToWords | src/lib/payslipCalculations.ts:51-103 | the result is "Zero" exactly for 0, and every other amount's result ends with " Only" |
| AmountWords.NumberToWordsIsIndianWords | src/lib/payslipCalculations.ts:51-103 | for 0 < n < 10^10 the result is the crore, lakh, thousand and last-group words, each group present only if non-zero, joined by single spaces, then " Only" |
| AmountWords.NumberToWordsShape | src/lib/payslipCalculations.ts:51-103 | for 0 < n < 10^10 the result starts with a non-space, never has two adjacent spaces, and ends with " Only" |
| AmountWords.ZeroAndNegativeAmounts | src/lib/payslipCalculations.ts:56-102 | 0 gives exactly "Zero", every other amount ends with " Only", and a negative amount gives exactly " Only" |
| AmountWords.SmallAmountWords | src/lib/payslipCalculations.ts:82-100 | below one thousand only the last group contributes words |
| AmountWords.OneHundred | src/lib/payslipCalculations.ts:51-103 | 100 is spelled "One Hundred Only" |
| AmountWords.TwelveLakhExample | src/lib/payslipCalculations.ts:51-103 | 1234567 is spelled "Twelve Lakh Thirty Four Thousand Five Hundred Sixty Seven Only" |
| AmountWords.ThousandHundreds | src/lib/payslipCalculations.ts:52-131 | a count of 1000 indexes past the ones table and is spelled "undefined Hundred" |
| AmountWords.CroreCountOverflow | src/lib/payslipCalculations.ts:52-65 | 10^10 is spelled "undefined Hundred Crore Only", which falls outside the range the word tables cover |
| Text.Trim | src/lib/payslipCalculations.ts:131 | `trim()` returns the non-blank infix with whitespace removed at both ends, or empty exactly for a blank string |
| Text.TrimSpaced | src/lib/payslipCalculations.ts:102 | trimming words that are each followed by a space gives the words joined by single spaces |
| Text.NatToStringRoundTrip | src/lib/googleSheets.ts:93 | the decimal string of a natural number reads back as that number |
| Text.PaddedDecimalValue | src/lib/googleSheets.ts:93 | `padStart` with '0' keeps the digits' value |
| SheetRows.Letters | src/lib/googleSheets.ts:84 | stripping non-letters keeps only ASCII letters, in their original order, and keeps every occurrence of each ASCII letter |
| SheetRows.LetterPrefix | src/lib/googleSheets.ts:84-86 | the first three letters uppercased, or all of them uppercased and padded with 'X' to three |
| SheetRows.NamePrefix | src/lib/googleSheets.ts:78-91 | the prefix is always three uppercase letters |
| SheetRows.PrefixFromLetters | src/lib/googleSheets.ts:78-86 | for a usable name with letters, position k of the prefix is the k-th letter uppercased, or 'X' once the letters run out |
| SheetRows.PrefixUnknown | src/lib/googleSheets.ts:78-91 | the prefix is "UNK" when the cell is absent or empty, trims to empty, reads "Unknown", or has no ASCII letter |
| SheetRows.IdSuffix | src/lib/googleSheets.ts:93 | the suffix has at least three digits, its value is index + 1, and a suffix longer than three digits has no leading zero |
| SheetRows.FirstRowSuffix | src/lib/googleSheets.ts:93 | row 0 gets the suffix "001" |
| SheetRows.EmployeeId | src/lib/googleSheets.ts:93 | the ID is the three-letter prefix followed by the padded row number |
| SheetRows.EmployeeIdRoundTrip | src/lib/googleSheets.ts:93 | everything after the first three characters of the ID reads back as index + 1 |
| SheetRows.DistinctRowsDistinctIds | src/lib/googleSheets.ts:76-93 | rows at different positions get different IDs, whatever their names |
| SheetRows.MapRow | src/lib/googleSheets.ts:97-123 | `id` is the decimal index + 1 without leading zeros; `name` is the raw first cell when truthy, untrimmed, and "Employee N" otherwise; a parseable salary cell, and a non-blank ESI or PF cell whose trimmed text parses, become the parsed value; designation falls back to "N/A", department is "N/A", and the text columns are the cell or empty past the row's end; the allowances, taxes and other deductions are 0 |
| SheetRows.DisplayName | src/lib/googleSheets.ts:78-79 | an absent or empty name cell reads "Unknown"; a present one reads as the cell with ECMAScript whitespace trimmed from both ends |
| SheetRows.ParseNumber | src/lib/googleSheets.ts:69-72 | a present, non-empty cell that parses becomes the parsed value |
| SheetRows.AmountCell | src/lib/googleSheets.ts:97-98 | an ESI or PF cell that is present, not blank, and parses once trimmed becomes the parsed value |
| SheetRows.TextCell | src/lib/googleSheets.ts:105-121 | a column defaulting to `''` is the cell as it is, or empty past the end of the row |
| SheetRows.MissingAmountsAreZero | src/lib/googleSheets.ts:69-98 | a missing, empty or unparseable salary cell becomes 0, and so does a missing, blank or unparseable ESI or PF cell |
| SheetRows.MapRows | src/lib/googleSheets.ts:67-124 | each row is mapped at its own position |
| SheetRows.MappedIdsUnique | src/lib/googleSheets.ts:67-124 | in one fetch the ids are 1, 2, ... and no two employees share an `id` or an employee ID |
| Seqs.Filter | src/app/api/payslips/generate/route.ts:44 | `filter` keeps exactly the elements satisfying the predicate, in order, each as often as it occurs |
| Seqs.Find | src/app/api/payslips/generate/route.ts:180 | `find` returns an element satisfying the predicate with none before it, and nothing exactly when none satisfies it |
| Batch.ValidationErrors | src/app/api/payslips/generate/route.ts:61-81 | each error is reported exactly when its condition holds (name missing or blank, basic salary not positive, either day count not positive), and no error is reported exactly when the employee is valid |
| Batch.Process | src/app/api/payslips/generate/route.ts:58-122 | an employee yields a payslip exactly when it passes validation, and otherwise a failure under its own name with at least one error |
| Batch.Partition | src/app/api/payslips/generate/route.ts:55-123 | every selected employee lands in exactly one of the two lists |
| Batch.NoPayslipsIffAllRejected | src/app/api/payslips/generate/route.ts:55-126 | no payslip is produced exactly when every selected employee is rejected |
| Batch.NoFailuresIffAllValid | src/app/api/payslips/generate/route.ts:55-123 | no failure is reported exactly when every selected employee passes |
| Batch.PartitionIsFilter | src/app/api/payslips/generate/route.ts:55-123 | the payslips are those of the valid employees, in selection order |
| Batch.FailuresAreRejectedEmployees | src/app/api/payslips/generate/route.ts:55-123 | the failures are those of the rejected employees, each with its own errors, in selection order |
| Batch.BadDaysRejectAll | src/app/api/payslips/generate/route.ts:71-79 | a non-positive day count rejects every employee |
| Batch.Totals | src/app/api/payslips/generate/route.ts:139-143 | the sums over no payslips are 0, and over one payslip are its own gross, deductions and net |
| Batch.TotalsAppend | src/app/api/payslips/generate/route.ts:139-143 | the summary sums of two batches add up |
| Batch.TotalsNearlyBalance | src/app/api/payslips/generate/route.ts:139-143 | over calculator payslips, total net differs from total gross minus total deductions by at most one rupee per payslip |
| GenerateRoute.Selection | src/app/api/payslips/generate/route.ts:43-45 | an empty ID list selects every employee; otherwise exactly the listed ones, each as often as it occurs in the sheet, in sheet order |
| GenerateRoute.Generate | src/app/api/payslips/generate/route.ts:6-152 | a missing month or year, a missing spreadsheet, no employees and an empty selection are each answered exactly when they occur; on success the count equals the number of payslips, payslips plus failures equal the selection size, and the summary sums the payslips |
| GenerateRoute.GenerateOutcome | src/app/api/payslips/generate/route.ts:55-138 | once the loop runs, the reply is the failure listing exactly when every selected employee is rejected; otherwise the payslips are those of the valid employees and the reported failures those of the rejected ones, in order |
| GenerateRoute.DefaultDays | src/app/api/payslips/generate/route.ts:9-15 | absent day counts make every payslip carry 30 and 30 |
| GenerateRoute.SummaryBalances | src/app/api/payslips/generate/route.ts:134-144 | the summary's net total is within one rupee per payslip of gross minus deductions |
| GenerateRoute.GetPayslip | src/app/api/payslips/generate/route.ts:154-209 | missing month, year or employee ID gives 400, a missing spreadsheet 400, and an ID no employee has 404; a found payslip is for that employee and month |
| GenerateRoute.GetUsesFirstMatch | src/app/api/payslips/generate/route.ts:160-196 | the payslip is computed for the first matching employee, with the parsed day counts (defaulting to "30") and the parsed year |
| BulkPdfRoute.Listed | src/app/api/payslips/bulk-pdf/route.ts:36 | the selection is exactly the listed employees, each as often as it occurs in the sheet, in sheet order |
| BulkPdfRoute.FileName | src/app/api/payslips/bulk-pdf/route.ts:127 | read by position, the name is "payslips-", the count in decimal (which reads back as the count), "-employees-", the month, "-" with the year, and ".html" |
| BulkPdfRoute.FileNameShape | src/app/api/payslips/bulk-pdf/route.ts:127 | each piece of the template literal can be read back from its position in the name |
| BulkPdfRoute.BulkPdf | src/app/api/payslips/bulk-pdf/route.ts:6-145 | missing parameters, a missing spreadsheet and an empty selection are each answered exactly when they occur; a document has payslips, and its count headers are decimal without leading zeros, reading back as numbers summing to the selection size |
| BulkPdfRoute.EmptyListRefused | src/app/api/payslips/bulk-pdf/route.ts:17-22 | an empty ID list is a 400, not "every employee" |
| BulkPdfRoute.BulkOutcome | src/app/api/payslips/bulk-pdf/route.ts:49-121 | once the loop runs, no document is produced exactly when every listed employee is rejected; otherwise the payslips are those of the valid employees, in order, and an all-failed reply lists every rejection |
| EmployeeList.SelectAll | src/components/EmployeeList.tsx:24-30 | a selection as long as the employee list is cleared; otherwise the selection becomes every employee's ID, each at its employee's position |
| EmployeeList.SelectAllTwice | src/components/EmployeeList.tsx:24-30 | two select-alls from a partial selection end with nothing selected |
| EmployeeList.SelectAllComparesLengths | src/components/EmployeeList.tsx:24-30 | a selection with the right length but other contents is still cleared |
| EmployeeList.Toggle | src/components/EmployeeList.tsx:32-38 | the toggled ID flips membership and no other ID does; a present ID is removed everywhere with the rest kept in order; an absent ID is appended |
| EmployeeList.FilterSize | src/components/EmployeeList.tsx:34 | removing an ID shortens the selection by its number of occurrences |
| EmployeeList.ToggleTwiceRestores | src/components/EmployeeList.tsx:32-38 | toggling an unselected ID twice restores the selection exactly |
| EmployeeList.PayslipFor | src/components/EmployeeList.tsx:40-42 | the result is a payslip for that employee, and nothing exactly when no payslip matches |
| EmployeeList.PayslipForIsFirst | src/components/EmployeeList.tsx:40-42 | when several payslips match, the earliest one is returned |

## Left out

- **HTML document generation.** The payslip HTML generator (`pdfGenerator.ts`) is a template that depends on locale formatting and environment variables. The bulk handler's document body is not modelled; only its file name and count headers are.
- **UI rendering and browser interaction.** The React components' rendering, fetch calls and printing are left out; only the three list handlers are modelled.
- **Google Sheets access.** Authentication, the API call and the access check are network I/O. The fetched rows are an input sequence, and the "spreadsheet configured" environment check is a boolean parameter.
- **Number parsing.** `parseFloat` and `parseInt` are foreign number parsing. Each is a function parameter whose `None` stands for NaN.
- **`generatedDate`.** It reads the wall clock through date-fns and is left out of the payslip record.
- **IEEE-754 behaviour.** NaN, Infinity and division by zero are not modelled. The calculator requires a non-zero working-days count, which the handlers establish by validation. The handlers' NaN checks after calculation (src/app/api/payslips/generate/route.ts:92-102) cannot fire on exact reals and are not modelled.
- **The name-prefix `catch` branch.** It returns "ERR" (src/lib/googleSheets.ts:88-90) and is unreachable for string input, so it is not modelled.
- **Error message strings and console logging.** Failures are records of the name and its validation errors. The failed count and the partition are unaffected.
- **Sheet cell types.** Cells are modelled as strings. The sheet read uses the API's default formatted-value rendering, which returns every cell as a string. So the `typeof rawName === 'string'` test (src/lib/googleSheets.ts:79) and the `String(row[6])` and `String(row[7])` coercions (src/lib/googleSheets.ts:97-98) never see another type.
- **Fractional amounts in words.** `numberToWords` is modelled on integers only. Every caller passes a net salary that has already been rounded.
- **Non-numeric JSON values.** `year` in a JSON body is an integer; a year sent as a string is not modelled. Day counts in a POST body are absent or a number; an explicit `null` is not modelled.
- **Thin wrappers.** The employees route and the single-payslip document route wrap the fetch and the calculator and are not part of this model.
- GetPayslip: requires the day counts and the year to parse, with non-zero working days, but only when the lookup reaches the calculator. The source would compute with NaN or divide by zero there, which is outside the exact-real model.
- GetPayslip: its own contract fixes only the employee ID and month of a found payslip; `GetUsesFirstMatch` states the full result.
- AbsentDeductionsCountAsZero: states the zero deductions and the net equal to gross for one payslip, rather than comparing the whole payslip with that of an employee whose deductions are explicitly 0.

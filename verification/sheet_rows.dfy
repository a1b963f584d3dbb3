/** The per-row mapping inside `GoogleSheetsService.getEmployees`: turns one
    sheet row and its position into an `Employee`, synthesising a unique
    employee ID from the name and the row number. Cells arrive as strings;
    a cell past the end of a row is absent. Float parsing is a parameter. */
module SheetRows {
  import opened Wrappers
  import opened Text
  import opened Seqs
  import opened EmployeeTypes

  type Row = seq<string>

  /** `row[i]`: absent past the end of the row. */
  function Cell(row: Row, i: nat): Option<string> {
    if i < |row| then Some(row[i]) else None
  }

  // ---------------------------------------------------------------------------
  // Employee ID: a three-letter name prefix and the padded row number

  /** The name the prefix is built from: the trimmed first cell, or
      "Unknown" when that cell is absent or empty. */
  function DisplayName(raw: Option<string>): (name: string)
    ensures !Truthy(raw) ==> name == "Unknown"
    ensures Truthy(raw) ==> name == Trim(raw.value)
    ensures name == "" || IsTrimmed(name)
  {
    if Truthy(raw) then Trim(raw.value) else "Unknown"
  }

  predicate IsAsciiLetter(c: char) {
    'a' <= c <= 'z' || 'A' <= c <= 'Z'
  }

  predicate IsUpperLetter(c: char) {
    'A' <= c <= 'Z'
  }

  /** `name.replace(/[^a-zA-Z]/g, '')`. */
  function Letters(name: string): (r: string)
    ensures forall k :: 0 <= k < |r| ==> IsAsciiLetter(r[k])
    ensures forall c :: IsAsciiLetter(c) ==> multiset(r)[c] == multiset(name)[c]
    ensures IsSubsequence(r, name)
  {
    var r := Filter(name, IsAsciiLetter);
    assert forall k :: 0 <= k < |r| ==> r[k] in r;
    r
  }

  function Upper(c: char): (u: char)
    ensures IsAsciiLetter(c) ==> IsUpperLetter(u)
  {
    if 'a' <= c <= 'z' then (c as int - 32) as char else c
  }

  /** `toUpperCase()` on a string of ASCII letters. */
  function UpperAscii(s: string): (r: string)
    requires forall k :: 0 <= k < |s| ==> IsAsciiLetter(s[k])
    ensures |r| == |s|
    ensures forall k :: 0 <= k < |r| ==> IsUpperLetter(r[k]) && r[k] == Upper(s[k])
  {
    seq(|s|, k requires 0 <= k < |s| => Upper(s[k]))
  }

  /** The prefix built from a name's letters: the first three uppercased,
      or all of them uppercased and padded on the right with 'X' to three. */
  function LetterPrefix(clean: string): (p: string)
    requires |clean| > 0 && forall k :: 0 <= k < |clean| ==> IsAsciiLetter(clean[k])
    ensures |p| == 3
    ensures forall k :: 0 <= k < 3 ==> p[k] == if k < |clean| then Upper(clean[k]) else 'X'
    ensures forall k :: 0 <= k < 3 ==> IsUpperLetter(p[k])
  {
    if |clean| >= 3 then UpperAscii(clean[..3])
    else PadEnd(UpperAscii(clean), 3, 'X')
  }

  /** The name is usable for a prefix: present, not blank after trimming,
      and not the literal "Unknown". */
  predicate HasUsableName(raw: Option<string>) {
    Truthy(raw) && Trim(raw.value) != "" && Trim(raw.value) != "Unknown"
  }

  /** The name prefix: built from the letters of the trimmed name, and "UNK"
      when the name cell is absent, blank, "Unknown", or has no ASCII
      letters. */
  function NamePrefix(raw: Option<string>): (p: string)
    ensures |p| == 3
    ensures forall k :: 0 <= k < 3 ==> IsUpperLetter(p[k])
  {
    PrefixOfName(DisplayName(raw))
  }

  /** The prefix of a display name, "UNK" standing in for a missing one. */
  function PrefixOfName(name: string): (p: string)
    ensures |p| == 3
    ensures forall k :: 0 <= k < 3 ==> IsUpperLetter(p[k])
  {
    if name != "" && name != "Unknown" then PrefixOfLetters(Letters(name)) else Unknown()
  }

  /** The prefix built from the letters of a name, "UNK" when there are none. */
  function PrefixOfLetters(clean: string): (p: string)
    requires forall k :: 0 <= k < |clean| ==> IsAsciiLetter(clean[k])
    ensures |p| == 3
    ensures forall k :: 0 <= k < 3 ==> IsUpperLetter(p[k])
  {
    if |clean| > 0 then LetterPrefix(clean) else Unknown()
  }

  /** The stand-in prefix "UNK". */
  function Unknown(): (p: string)
    ensures |p| == 3
    ensures forall k :: 0 <= k < 3 ==> IsUpperLetter(p[k])
  {
    "UNK"
  }

  /** Position by position, the prefix of a name with at least one letter
      holds the uppercased letters of the name, then 'X' once they run out. */
  lemma PrefixFromLetters(raw: Option<string>)
    requires HasUsableName(raw) && |Letters(Trim(raw.value))| > 0
    ensures var clean := Letters(Trim(raw.value));
      forall k :: 0 <= k < 3 ==>
        NamePrefix(raw)[k] == if k < |clean| then Upper(clean[k]) else 'X'
  {
    assert NamePrefix(raw) == LetterPrefix(Letters(Trim(raw.value)));
  }

  /** The prefix is "UNK" whenever the name cell is absent or empty, trims to
      nothing, reads "Unknown", or holds no ASCII letter. */
  lemma PrefixUnknown(raw: Option<string>)
    requires !HasUsableName(raw) || |Letters(Trim(raw.value))| == 0
    ensures NamePrefix(raw) == "UNK"
  {
  }

  /** `String(index + 1).padStart(3, '0')`. */
  function IdSuffix(index: nat): (s: string)
    ensures |s| >= 3 && IsDigits(s)
    ensures DigitsValue(s) == index + 1
    ensures |s| > 3 ==> s[0] != '0'
  {
    PaddedDecimalValue(index + 1, 3);
    PadStart(NatToString(index + 1), 3, '0')
  }

  lemma FirstRowSuffix()
    ensures IdSuffix(0) == "001"
  {
    assert NatToString(1) == "1";
  }

  /** `uniqueEmployeeId`: the prefix followed by the padded row number. */
  function EmployeeId(raw: Option<string>, index: nat): (id: string)
    ensures |id| >= 6 && id[..3] == NamePrefix(raw) && id[3..] == IdSuffix(index)
  {
    NamePrefix(raw) + IdSuffix(index)
  }

  /** The row number can be read back from the ID: everything after the
      three-letter prefix is a decimal with the value index + 1. */
  lemma EmployeeIdRoundTrip(raw: Option<string>, index: nat)
    ensures var id := EmployeeId(raw, index);
      IsDigits(id[3..]) && DigitsValue(id[3..]) == index + 1
  {
  }

  /** Rows at different positions get different IDs, whatever their names. */
  lemma DistinctRowsDistinctIds(a: Option<string>, i: nat, b: Option<string>, j: nat)
    requires i != j
    ensures EmployeeId(a, i) != EmployeeId(b, j)
  {
  }

  // ---------------------------------------------------------------------------
  // Field mapping

  /** `parseNumber(value)`: `parseFloat(value || '0')`, and 0 when that is
      not a number. `parse` gives `None` for NaN. */
  function ParseNumber(parse: string -> Option<real>, value: Option<string>): (x: real)
    ensures forall v :: Truthy(value) && parse(value.value) == Some(v) ==> x == v
  {
    match parse(OrElse(value, "0"))
    case None => 0.0
    case Some(x) => x
  }

  /** The ESI and PF cells: trimmed when present, "0" when absent. */
  function TrimmedCell(cell: Option<string>): Option<string> {
    match cell
    case None => Some("0")
    case Some(s) => Some(Trim(s))
  }

  /** An ESI or PF amount: the parsed trimmed cell whenever it is not blank
      and parses. */
  function AmountCell(parse: string -> Option<real>, cell: Option<string>): (x: real)
    ensures forall v :: cell.Some? && !IsBlank(cell.value) && parse(Trim(cell.value)) == Some(v) ==> x == v
  {
    ParseNumber(parse, TrimmedCell(cell))
  }

  /** A text column with `''` as its default: the cell as it is, or empty
      past the end of the row. */
  function TextCell(row: Row, i: nat): (s: string)
    ensures s == if i < |row| then row[i] else ""
  {
    OrElse(Cell(row, i), "")
  }

  /** One sheet row at position `index`, with the columns Name, Designation,
      Email, Phone, Date of joining, Basic, ESI, PF, Bank, Account, IFSC. */
  function MapRow(parse: string -> Option<real>, row: Row, index: nat): (e: Employee)
    ensures IsDigits(e.id) && DigitsValue(e.id) == index + 1 && e.id[0] != '0'
    ensures e.employeeId == EmployeeId(Cell(row, 0), index)
    ensures Truthy(Cell(row, 0)) ==> e.name == row[0]
    ensures !Truthy(Cell(row, 0)) ==> e.name == "Employee " + e.id
    ensures e.hra == e.da == e.conveyanceAllowance == e.medicalAllowance
         == e.specialAllowance == e.professionalTax == e.incomeTax
         == e.otherDeductions == Some(0.0)
    ensures e.providentFund.Some? && e.esi.Some?
    ensures forall v :: Truthy(Cell(row, 5)) && parse(row[5]) == Some(v) ==> e.basicSalary == v
    ensures forall v :: |row| > 6 && !IsBlank(row[6]) && parse(Trim(row[6])) == Some(v) ==> e.esi == Some(v)
    ensures forall v :: |row| > 7 && !IsBlank(row[7]) && parse(Trim(row[7])) == Some(v) ==> e.providentFund == Some(v)
    ensures e.designation == Some(if Truthy(Cell(row, 1)) then row[1] else "N/A")
    ensures e.department == Some("N/A")
    ensures e.email == Some(if |row| > 2 then row[2] else "")
    ensures e.phone == Some(if |row| > 3 then row[3] else "")
    ensures e.dateOfJoining == Some(if |row| > 4 then row[4] else "")
    ensures e.bankName == Some(if |row| > 8 then row[8] else "")
    ensures e.accountNumber == Some(if |row| > 9 then row[9] else "")
    ensures e.ifscCode == Some(if |row| > 10 then row[10] else "")
  {
    NatToStringRoundTrip(index + 1);
    var n := NatToString(index + 1);
    Employee(
      id := n,
      name := OrElse(Cell(row, 0), "Employee " + n),
      employeeId := EmployeeId(Cell(row, 0), index),
      designation := Some(OrElse(Cell(row, 1), "N/A")),
      department := Some("N/A"),
      email := Some(TextCell(row, 2)),
      phone := Some(TextCell(row, 3)),
      dateOfJoining := Some(TextCell(row, 4)),
      basicSalary := ParseNumber(parse, Cell(row, 5)),
      hra := Some(0.0),
      da := Some(0.0),
      conveyanceAllowance := Some(0.0),
      medicalAllowance := Some(0.0),
      specialAllowance := Some(0.0),
      providentFund := Some(AmountCell(parse, Cell(row, 7))),
      professionalTax := Some(0.0),
      incomeTax := Some(0.0),
      esi := Some(AmountCell(parse, Cell(row, 6))),
      otherDeductions := Some(0.0),
      bankName := Some(TextCell(row, 8)),
      accountNumber := Some(TextCell(row, 9)),
      ifscCode := Some(TextCell(row, 10)))
  }

  /** A salary cell that is absent, empty or unparseable reads as 0, and so
      does an ESI or PF cell that is absent, blank or unparseable, given that
      "0" parses as 0. */
  lemma MissingAmountsAreZero(parse: string -> Option<real>, row: Row, index: nat)
    requires parse("0") == Some(0.0)
    ensures var e := MapRow(parse, row, index);
      && (!Truthy(Cell(row, 5)) || parse(row[5]).None? ==> e.basicSalary == 0.0)
      && (|row| <= 6 || IsBlank(row[6]) || parse(Trim(row[6])).None? ==> e.esi == Some(0.0))
      && (|row| <= 7 || IsBlank(row[7]) || parse(Trim(row[7])).None? ==> e.providentFund == Some(0.0))
  {
  }

  /** `rows.map(...)`: every row mapped at its own position. */
  function MapRows(parse: string -> Option<real>, rows: seq<Row>): (es: seq<Employee>)
    ensures |es| == |rows|
    ensures forall i :: 0 <= i < |es| ==> es[i] == MapRow(parse, rows[i], i)
  {
    seq(|rows|, i requires 0 <= i < |rows| => MapRow(parse, rows[i], i))
  }

  /** The row numbers 1, 2, ... become the `id`s, and no two mapped
      employees share an `id` or an employee ID. */
  lemma MappedIdsUnique(parse: string -> Option<real>, rows: seq<Row>)
    ensures var es := MapRows(parse, rows);
      && (forall i :: 0 <= i < |es| ==> IsDigits(es[i].id) && DigitsValue(es[i].id) == i + 1)
      && (forall i, j :: 0 <= i < j < |es| ==> es[i].employeeId != es[j].employeeId)
      && (forall i, j :: 0 <= i < j < |es| ==> es[i].id != es[j].id)
  {
    var es := MapRows(parse, rows);
    forall i | 0 <= i < |es|
      ensures IsDigits(es[i].id) && DigitsValue(es[i].id) == i + 1
    {
      assert es[i] == MapRow(parse, rows[i], i);
    }
    forall i, j | 0 <= i < j < |es|
      ensures es[i].employeeId != es[j].employeeId && es[i].id != es[j].id
    {
      assert es[i] == MapRow(parse, rows[i], i);
      assert es[j] == MapRow(parse, rows[j], j);
      DistinctRowsDistinctIds(Cell(rows[i], 0), i, Cell(rows[j], 0), j);
    }
  }
}

/**
 * api/deduction-table.py: the full tier loader, the first-match lookup of
 * an employee by unit and jabatan, and the fixed table of seven early-leave
 * and seven lateness tiers built from the row found.
 */
module DeductionTableApi {
  import opened Wrappers
  import opened Roster

  /** One row of the sheet: its unit, jabatan and the 7 + 7 tier deductions. */
  datatype TierEmployee = TierEmployee(unit: string, jabatan: string, pulangAwal: seq<int>, terlambat: seq<int>)

  predicate WellShaped(e: TierEmployee) {
    IsName(e.unit) && IsName(e.jabatan) && |e.pulangAwal| == TiersPerKind && |e.terlambat| == TiersPerKind
  }

  predicate AllWellShaped(es: seq<TierEmployee>) {
    forall k :: 0 <= k < |es| ==> WellShaped(es[k])
  }

  /**
   * What a data row contributes once its unit is known: nothing when one of
   * its fourteen tier cells fails `int()` (the bare `except: continue`), or
   * when its unit or jabatan is not a name.
   */
  function RowEmployee(row: Row, unit: string): (r: seq<TierEmployee>)
    requires |row| >= TierWidth
    ensures |r| <= 1 && AllWellShaped(r)
  {
    var jabatan := TextOrEmpty(row[JabatanColumn]);
    match TierValues(row, FirstTierColumn, TierWidth)
    case None => []
    case Some(tiers) =>
      if IsName(unit) && IsName(jabatan)
      then [TierEmployee(unit, jabatan, tiers[..TiersPerKind], tiers[TiersPerKind..])]
      else []
  }

  /** The list `load_employee_data` has built after visiting rows FirstDataRow .. n-1. */
  function Employees(sheet: Sheet, n: nat): seq<TierEmployee>
    requires n <= |sheet| && Wide(sheet, TierWidth)
  {
    if n <= FirstDataRow then []
    else if IsHeaderOrBlank(sheet[n - 1]) then Employees(sheet, n - 1)
    else Employees(sheet, n - 1) + RowEmployee(sheet[n - 1], LastUnit(sheet, n))
  }

  /** One more row visited: a header or blank row adds nothing, a data row adds its employee, if any. */
  lemma EmployeesStep(sheet: Sheet, n: nat)
    requires FirstDataRow < n <= |sheet| && Wide(sheet, TierWidth)
    ensures Employees(sheet, n) == Employees(sheet, n - 1) +
      (if IsHeaderOrBlank(sheet[n - 1]) then [] else RowEmployee(sheet[n - 1], LastUnit(sheet, n)))
  {
  }

  /**
   * The `try:` block of the loop for a data row whose unit is already
   * carried: build the dict (converting the fourteen tier cells) and keep it
   * when unit and jabatan are names; a failed conversion keeps nothing.
   */
  method ParseRow(row: Row, currentUnit: string) returns (kept: seq<TierEmployee>)
    requires |row| >= TierWidth
    ensures kept == RowEmployee(row, currentUnit)
  {
    kept := [];
    var tiers := TierValues(row, FirstTierColumn, TierWidth);
    if tiers.Some? {
      var employee := TierEmployee(currentUnit, TextOrEmpty(row[JabatanColumn]),
                                   tiers.value[..TiersPerKind], tiers.value[TiersPerKind..]);
      if employee.unit != "" && employee.unit != "0" && employee.jabatan != "" && employee.jabatan != "0" {
        kept := [employee];
      }
    }
  }

  /**
   * One pass of the loop, over row `i`: skip a header or blank row, else
   * carry the unit and parse the row; `next` is the row the loop visits next.
   */
  method LoadRow(sheet: Sheet, i: nat, employees: seq<TierEmployee>, lastValidUnit: string)
    returns (employees': seq<TierEmployee>, lastValidUnit': string, next: nat)
    requires FirstDataRow <= i < |sheet| && Wide(sheet, TierWidth)
    requires employees == Employees(sheet, i) && lastValidUnit == LastUnit(sheet, i)
    ensures next == i + 1
    ensures employees' == Employees(sheet, next) && lastValidUnit' == LastUnit(sheet, next)
  {
    next := i + 1;
    var row := sheet[i];
    assert sheet[next - 1] == row;
    EmployeesStep(sheet, next);
    LastUnitStep(sheet, next);
    if IsHeaderOrBlank(row) {
      return employees, lastValidUnit, next;
    }
    assert LastUnit(sheet, next) == CarriedUnit(row[UnitColumn], lastValidUnit);
    assert Employees(sheet, next) == employees + RowEmployee(row, LastUnit(sheet, next));
    var currentUnit;
    currentUnit, lastValidUnit' := CarryUnit(row[UnitColumn], lastValidUnit);
    // the carried unit is updated even when a tier cell fails inside ParseRow
    var kept := ParseRow(row, currentUnit);
    employees' := employees + kept;
  }

  /** `load_employee_data()` of api/deduction-table.py. */
  method LoadEmployeeData(sheet: Sheet) returns (employees: seq<TierEmployee>)
    requires Wide(sheet, TierWidth)
    ensures employees == Employees(sheet, |sheet|)
  {
    employees := [];
    var lastValidUnit := "";
    var i := if |sheet| < FirstDataRow then |sheet| else FirstDataRow;
    while i < |sheet|
      invariant FirstDataRow <= i <= |sheet| || i == |sheet|
      invariant employees == Employees(sheet, i)
      invariant lastValidUnit == LastUnit(sheet, i)
    {
      employees, lastValidUnit, i := LoadRow(sheet, i, employees, lastValidUnit);
    }
  }

  /** The row the lookup reads: the first one with exactly this unit and jabatan. */
  predicate IsFor(e: TierEmployee, unit: string, jabatan: string) {
    e.unit == unit && e.jabatan == jabatan
  }

  /** The `for emp in employees: ... break` search of `do_GET`. */
  method FindEmployee(employees: seq<TierEmployee>, unit: string, jabatan: string)
    returns (employee: Option<TierEmployee>)
    ensures employee.None? <==> forall e :: e in employees ==> !IsFor(e, unit, jabatan)
    ensures employee.Some? ==>
      exists k :: 0 <= k < |employees| && employees[k] == employee.value && IsFor(employees[k], unit, jabatan)
        && forall j :: 0 <= j < k ==> !IsFor(employees[j], unit, jabatan)
  {
    employee := None;
    var i := 0;
    while i < |employees|
      invariant 0 <= i <= |employees|
      invariant forall j :: 0 <= j < i ==> !IsFor(employees[j], unit, jabatan)
    {
      if employees[i].unit == unit && employees[i].jabatan == jabatan {
        employee := Some(employees[i]);
        assert IsFor(employees[i], unit, jabatan) && employees[i] in employees;
        return;
      }
      i := i + 1;
    }
    forall e | e in employees
      ensures !IsFor(e, unit, jabatan)
    {
      var k :| 0 <= k < |employees| && employees[k] == e;
    }
  }

  datatype Tier = Tier(range: string, deduction: int)
  datatype Table = Table(pulangAwal: seq<Tier>, terlambat: seq<Tier>)

  const PulangAwalRanges: seq<string> :=
    ["1-10 menit", "11-20 menit", "21-30 menit", "31-40 menit", "41-50 menit", "51-60 menit", "> 60 menit"]
  const TerlambatRanges: seq<string> :=
    ["6-10 menit", "11-15 menit", "16-20 menit", "21-25 menit", "26-30 menit", "31-45 menit", "46-60 menit"]

  /** The `deduction_table` literal of `do_GET`. */
  function BuildTable(e: TierEmployee): (t: Table)
    requires |e.pulangAwal| == TiersPerKind && |e.terlambat| == TiersPerKind
    ensures |t.pulangAwal| == |PulangAwalRanges| && |t.terlambat| == |TerlambatRanges|
    ensures forall k :: 0 <= k < |t.pulangAwal| ==> t.pulangAwal[k] == Tier(PulangAwalRanges[k], e.pulangAwal[k])
    ensures forall k :: 0 <= k < |t.terlambat| ==> t.terlambat[k] == Tier(TerlambatRanges[k], e.terlambat[k])
  {
    var p, l := e.pulangAwal, e.terlambat;
    Table(
      [ Tier("1-10 menit", p[0]), Tier("11-20 menit", p[1]), Tier("21-30 menit", p[2]), Tier("31-40 menit", p[3]),
        Tier("41-50 menit", p[4]), Tier("51-60 menit", p[5]), Tier("> 60 menit", p[6]) ],
      [ Tier("6-10 menit", l[0]), Tier("11-15 menit", l[1]), Tier("16-20 menit", l[2]), Tier("21-25 menit", l[3]),
        Tier("26-30 menit", l[4]), Tier("31-45 menit", l[5]), Tier("46-60 menit", l[6]) ])
  }

  datatype TableData = TableData(unit: string, jabatan: string, table: Table)
  datatype Response = Success(data: TableData) | Failure(error: string)

  /** `do_GET` with the query's unit and jabatan (each '' when absent). */
  method HandleGet(sheet: Sheet, unit: string, jabatan: string) returns (response: Response)
    requires Wide(sheet, TierWidth)
    ensures var es := Employees(sheet, |sheet|);
      response.Failure? <==> forall e :: e in es ==> !IsFor(e, unit, jabatan)
    ensures response.Failure? ==> response.error == "Not found: " + unit + " - " + jabatan
    ensures response.Success? ==> var es := Employees(sheet, |sheet|);
      exists k :: 0 <= k < |es| && IsFor(es[k], unit, jabatan) && (forall j :: 0 <= j < k ==> !IsFor(es[j], unit, jabatan))
        && WellShaped(es[k]) && response.data == TableData(unit, jabatan, BuildTable(es[k]))
  {
    var employees := LoadEmployeeData(sheet);
    KeptRowsAreWellShaped(sheet, |sheet|);
    var employee := FindEmployee(employees, unit, jabatan);
    if employee.None? {
      response := Failure("Not found: " + unit + " - " + jabatan);
    } else {
      assert employee.value in employees;
      response := Success(TableData(unit, jabatan, BuildTable(employee.value)));
    }
  }

  /** Every kept employee has a named unit and jabatan and seven tiers of each kind. */
  lemma {:induction false} KeptRowsAreWellShaped(sheet: Sheet, n: nat)
    requires n <= |sheet| && Wide(sheet, TierWidth)
    ensures AllWellShaped(Employees(sheet, n))
  {
    if n > FirstDataRow {
      KeptRowsAreWellShaped(sheet, n - 1);
      WellShapedRowStep(sheet, n);
    }
  }

  /** Visiting row `n - 1` keeps every kept employee well shaped. */
  lemma WellShapedRowStep(sheet: Sheet, n: nat)
    requires FirstDataRow < n <= |sheet| && Wide(sheet, TierWidth)
    requires AllWellShaped(Employees(sheet, n - 1))
    ensures AllWellShaped(Employees(sheet, n))
  {
    EmployeesStep(sheet, n);
    if IsHeaderOrBlank(sheet[n - 1]) {
      AppendWellShaped(Employees(sheet, n - 1), [], Employees(sheet, n));
    } else {
      AppendWellShaped(Employees(sheet, n - 1), RowEmployee(sheet[n - 1], LastUnit(sheet, n)), Employees(sheet, n));
    }
  }

  lemma AppendWellShaped(prev: seq<TierEmployee>, row: seq<TierEmployee>, all: seq<TierEmployee>)
    requires all == prev + row
    requires AllWellShaped(prev) && AllWellShaped(row)
    ensures AllWellShaped(all)
  {
    forall k | 0 <= k < |all|
      ensures WellShaped(all[k])
    {
      if k < |prev| { assert all[k] == prev[k]; } else { assert all[k] == row[k - |prev|]; }
    }
  }

  /**
   * Every row the tier loader keeps is also offered by the unit/jabatan
   * loader behind the unit and position lists (the converse fails for a row
   * whose tier cell does not convert).
   */
  lemma {:induction false} PricedRowsAreListed(sheet: Sheet, n: nat)
    requires n <= |sheet| && Wide(sheet, TierWidth)
    ensures Listed(Employees(sheet, n), Assignments(sheet, n))
  {
    if n > FirstDataRow {
      PricedRowsAreListed(sheet, n - 1);
      PricedRowStep(sheet, n);
    }
  }

  /** Visiting one more row keeps every priced employee listed. */
  lemma PricedRowStep(sheet: Sheet, n: nat)
    requires FirstDataRow < n <= |sheet| && Wide(sheet, TierWidth)
    requires Listed(Employees(sheet, n - 1), Assignments(sheet, n - 1))
    ensures Listed(Employees(sheet, n), Assignments(sheet, n))
  {
    EmployeesStep(sheet, n);
    AssignmentsStep(sheet, n);
    if IsHeaderOrBlank(sheet[n - 1]) {
      AppendListed(Employees(sheet, n - 1), Assignments(sheet, n - 1), [], [], Employees(sheet, n), Assignments(sheet, n));
    } else {
      var u := LastUnit(sheet, n);
      RowListed(sheet[n - 1], u);
      AppendListed(Employees(sheet, n - 1), Assignments(sheet, n - 1),
                   RowEmployee(sheet[n - 1], u), RowAssignment(sheet[n - 1], u), Employees(sheet, n), Assignments(sheet, n));
    }
  }

  /** Each employee's (unit, jabatan) pair is among `names`. */
  predicate Listed(es: seq<TierEmployee>, names: seq<Assignment>) {
    forall e :: e in es ==> Assignment(e.unit, e.jabatan) in names
  }

  /** A row the tier loader keeps is a row the unit/jabatan loader keeps, with the same pair. */
  lemma RowListed(row: Row, unit: string)
    requires |row| >= TierWidth
    ensures Listed(RowEmployee(row, unit), RowAssignment(row, unit))
  {
  }

  lemma AppendListed(es: seq<TierEmployee>, names: seq<Assignment>, row: seq<TierEmployee>, nameRow: seq<Assignment>,
                      all: seq<TierEmployee>, allNames: seq<Assignment>)
    requires Listed(es, names) && Listed(row, nameRow)
    requires all == es + row && allNames == names + nameRow
    ensures Listed(all, allNames)
  {
    forall e | e in all
      ensures Assignment(e.unit, e.jabatan) in allNames
    {
      if e in es {
        assert Assignment(e.unit, e.jabatan) in names;
      } else {
        assert Assignment(e.unit, e.jabatan) in nameRow;
      }
    }
  }

}

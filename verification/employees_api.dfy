/**
 * api/employees.py: the same row loop as the tier loader, keeping every
 * column and the row index as `id`; `do_GET` answers the list and its count.
 */
module EmployeesApi {
  import opened Wrappers
  import opened Roster
  import DeductionTableApi

  datatype Employee = Employee(
    id: nat, no: string, noRekPanin: string, noRekCcb: string,
    unit: string, jabatan: string, pulangAwal: seq<int>, terlambat: seq<int>)

  /**
   * What data row `i` contributes once its unit is known. Only ValueError and
   * TypeError are caught here, but `int()` on a cell raises nothing else, so
   * a failed tier cell again drops just the row.
   */
  function RowEmployee(sheet: Sheet, i: nat, unit: string): (r: seq<Employee>)
    requires i < |sheet| && Wide(sheet, TierWidth)
    ensures |r| <= 1
    ensures forall k :: 0 <= k < |r| ==> r[k].id == i && IsName(r[k].unit) && IsName(r[k].jabatan)
  {
    var row := sheet[i];
    match TierValues(row, FirstTierColumn, TierWidth)
    case None => []
    case Some(tiers) =>
      var e := Employee(i, TextOrEmpty(row[NoColumn]), TextOrEmpty(row[RekPaninColumn]), TextOrEmpty(row[RekCcbColumn]),
                        unit, TextOrEmpty(row[JabatanColumn]), tiers[..TiersPerKind], tiers[TiersPerKind..]);
      if IsName(e.unit) && IsName(e.jabatan) then [e] else []
  }

  /** The list `load_employee_data` has built after visiting rows FirstDataRow .. n-1. */
  function Employees(sheet: Sheet, n: nat): (r: seq<Employee>)
    requires n <= |sheet| && Wide(sheet, TierWidth)
  {
    if n <= FirstDataRow then []
    else if IsHeaderOrBlank(sheet[n - 1]) then Employees(sheet, n - 1)
    else Employees(sheet, n - 1) + RowEmployee(sheet, n - 1, LastUnit(sheet, n))
  }

  /** The `try:` block of the loop for data row `i`, its unit already carried. */
  method ParseRow(sheet: Sheet, i: nat, currentUnit: string) returns (kept: seq<Employee>)
    requires i < |sheet| && Wide(sheet, TierWidth)
    ensures kept == RowEmployee(sheet, i, currentUnit)
  {
    kept := [];
    var row := sheet[i];
    var tiers := TierValues(row, FirstTierColumn, TierWidth);
    if tiers.Some? {
      var employee := Employee(i, TextOrEmpty(row[NoColumn]), TextOrEmpty(row[RekPaninColumn]),
                               TextOrEmpty(row[RekCcbColumn]), currentUnit, TextOrEmpty(row[JabatanColumn]),
                               tiers.value[..TiersPerKind], tiers.value[TiersPerKind..]);
      if employee.unit != "" && employee.unit != "0" && employee.jabatan != "" && employee.jabatan != "0" {
        kept := [employee];
      }
    }
  }

  /**
   * One pass of the loop, over row `i`: skip a header or blank row, else
   * carry the unit and parse the row; `next` is the row the loop visits next.
   */
  method LoadRow(sheet: Sheet, i: nat, employees: seq<Employee>, lastValidUnit: string)
    returns (employees': seq<Employee>, lastValidUnit': string, next: nat)
    requires FirstDataRow <= i < |sheet| && Wide(sheet, TierWidth)
    requires employees == Employees(sheet, i) && lastValidUnit == LastUnit(sheet, i)
    ensures next == i + 1
    ensures employees' == Employees(sheet, next) && lastValidUnit' == LastUnit(sheet, next)
  {
    next := i + 1;
    var row := sheet[i];
    assert sheet[next - 1] == row;
    EmployeesStep(sheet, next);
    LastUnitStep(sheet, next);
    if IsHeaderOrBlank(row) {
      return employees, lastValidUnit, next;
    }
    assert LastUnit(sheet, next) == CarriedUnit(row[UnitColumn], lastValidUnit);
    assert Employees(sheet, next) == employees + RowEmployee(sheet, i, LastUnit(sheet, next));
    var currentUnit;
    currentUnit, lastValidUnit' := CarryUnit(row[UnitColumn], lastValidUnit);
    // the carried unit is updated even when a tier cell fails inside ParseRow
    var kept := ParseRow(sheet, i, currentUnit);
    employees' := employees + kept;
  }

  /** `load_employee_data()` of api/employees.py. */
  method LoadEmployeeData(sheet: Sheet) returns (employees: seq<Employee>)
    requires Wide(sheet, TierWidth)
    ensures employees == Employees(sheet, |sheet|)
  {
    employees := [];
    var lastValidUnit := "";
    var i := if |sheet| < FirstDataRow then |sheet| else FirstDataRow;
    while i < |sheet|
      invariant FirstDataRow <= i <= |sheet| || i == |sheet|
      invariant employees == Employees(sheet, i)
      invariant lastValidUnit == LastUnit(sheet, i)
    {
      employees, lastValidUnit, i := LoadRow(sheet, i, employees, lastValidUnit);
    }
  }

  datatype Listing = Listing(data: seq<Employee>, count: nat)

  /** `do_GET`: the loaded list, its ids strictly increasing, and its length as `count`. */
  method HandleGet(sheet: Sheet) returns (response: Listing)
    requires Wide(sheet, TierWidth)
    ensures response.data == Employees(sheet, |sheet|)
    ensures response.count == |response.data|
    ensures LoadedBelow(response.data, |sheet|)
  {
    var employees := LoadEmployeeData(sheet);
    KeptRowsAreNamedAndNumbered(sheet, |sheet|);
    response := Listing(employees, |employees|);
  }

  /** One more row visited: a header or blank row adds nothing, a data row adds its employee, if any. */
  lemma EmployeesStep(sheet: Sheet, n: nat)
    requires FirstDataRow < n <= |sheet| && Wide(sheet, TierWidth)
    ensures Employees(sheet, n) == Employees(sheet, n - 1) +
      (if IsHeaderOrBlank(sheet[n - 1]) then [] else RowEmployee(sheet, n - 1, LastUnit(sheet, n)))
  {
  }

  /**
   * What the list holds after the rows below `n`: every unit and jabatan is a
   * name, and the ids are data-row numbers below `n`, strictly increasing.
   */
  predicate LoadedBelow(r: seq<Employee>, n: nat) {
    && (forall k :: 0 <= k < |r| ==> IsName(r[k].unit) && IsName(r[k].jabatan))
    && (forall k :: 0 <= k < |r| ==> FirstDataRow <= r[k].id < n)
    && (forall j, k :: 0 <= j < k < |r| ==> r[j].id < r[k].id)
  }

  /**
   * Only named rows are kept, and `id` is the row index: the ids of the rows
   * loaded so far are row numbers, in order.
   */
  lemma {:induction false} KeptRowsAreNamedAndNumbered(sheet: Sheet, n: nat)
    requires n <= |sheet| && Wide(sheet, TierWidth)
    ensures LoadedBelow(Employees(sheet, n), n)
  {
    if n > FirstDataRow {
      KeptRowsAreNamedAndNumbered(sheet, n - 1);
      NumberedRowStep(sheet, n);
    }
  }

  /** Visiting row `n - 1` keeps the list well formed. */
  lemma NumberedRowStep(sheet: Sheet, n: nat)
    requires FirstDataRow < n <= |sheet| && Wide(sheet, TierWidth)
    requires LoadedBelow(Employees(sheet, n - 1), n - 1)
    ensures LoadedBelow(Employees(sheet, n), n)
  {
    EmployeesStep(sheet, n);
    if IsHeaderOrBlank(sheet[n - 1]) {
      AppendRow(Employees(sheet, n - 1), [], n, Employees(sheet, n));
    } else {
      AppendRow(Employees(sheet, n - 1), RowEmployee(sheet, n - 1, LastUnit(sheet, n)), n, Employees(sheet, n));
    }
  }

  /** Appending what row `n - 1` contributes after the rows below it keeps the list well formed. */
  lemma AppendRow(prev: seq<Employee>, row: seq<Employee>, n: nat, r: seq<Employee>)
    requires FirstDataRow < n && r == prev + row
    requires LoadedBelow(prev, n - 1)
    requires |row| <= 1
    requires forall k :: 0 <= k < |row| ==> row[k].id == n - 1 && IsName(row[k].unit) && IsName(row[k].jabatan)
    ensures LoadedBelow(r, n)
  {
    forall k | 0 <= k < |r|
      ensures IsName(r[k].unit) && IsName(r[k].jabatan) && FirstDataRow <= r[k].id < n
    {
      if k < |prev| { assert r[k] == prev[k]; } else { assert r[k] == row[k - |prev|]; }
    }
    forall j, k | 0 <= j < k < |r|
      ensures r[j].id < r[k].id
    {
      if k < |prev| {
        assert r[j] == prev[j] && r[k] == prev[k];
      } else {
        assert r[j] == prev[j] && r[k] == row[k - |prev|];
      }
    }
  }

  /** The fields the tier loader of api/deduction-table.py keeps for a row. */
  function AsTier(es: seq<Employee>): (ts: seq<DeductionTableApi.TierEmployee>)
    ensures |ts| == |es|
    ensures forall k :: 0 <= k < |es| ==>
      ts[k] == DeductionTableApi.TierEmployee(es[k].unit, es[k].jabatan, es[k].pulangAwal, es[k].terlambat)
  {
    if es == [] then []
    else AsTier(es[..|es| - 1]) + [DeductionTableApi.TierEmployee(es[|es| - 1].unit, es[|es| - 1].jabatan,
                                                                  es[|es| - 1].pulangAwal, es[|es| - 1].terlambat)]
  }

  /**
   * The narrower exception catch changes nothing: dropping `no`, the account
   * numbers and `id`, this loader's list is exactly the tier loader's list.
   */
  lemma {:induction false} SameRowsAsTierLoader(sheet: Sheet, n: nat)
    requires n <= |sheet| && Wide(sheet, TierWidth)
    ensures AsTier(Employees(sheet, n)) == DeductionTableApi.Employees(sheet, n)
  {
    if n > FirstDataRow {
      SameRowsAsTierLoader(sheet, n - 1);
      var prev, tiers := Employees(sheet, n - 1), DeductionTableApi.Employees(sheet, n - 1);
      if IsHeaderOrBlank(sheet[n - 1]) {
        assert Employees(sheet, n) == prev;
        assert DeductionTableApi.Employees(sheet, n) == tiers;
      } else {
        var u := LastUnit(sheet, n);
        var row, tierRow := RowEmployee(sheet, n - 1, u), DeductionTableApi.RowEmployee(sheet[n - 1], u);
        assert Employees(sheet, n) == prev + row;
        assert DeductionTableApi.Employees(sheet, n) == tiers + tierRow;
        assert AsTier(row) == tierRow;
        assert AsTier(prev + row) == AsTier(prev) + AsTier(row);
      }
    }
  }
}

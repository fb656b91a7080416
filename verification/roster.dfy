/**
 * The spreadsheet of deduction tiers as the four catalog endpoints read it
 * (`load_employee_data` in api/deduction-table.py, api/employees.py,
 * api/positions.py and api/units.py): the cell values, Python's `str()` and
 * `int()` on them, the header/blank-row skip, the carried-forward unit, and
 * the unit/jabatan-only loader that api/positions.py and api/units.py share
 * word for word.
 */
module Roster {
  import opened Wrappers
  import opened Decimal

  /** One cell as the sheet reader delivers it: empty, text, or an integer. */
  datatype Cell = NaN | Text(text: string) | Int(value: int)

  type Row = seq<Cell>
  type Sheet = seq<Row>

  /** The loop `for i in range(8, len(df))` starts below the sheet's title block. */
  const FirstDataRow: nat := 8
  const NoColumn: nat := 1
  const RekPaninColumn: nat := 2
  const RekCcbColumn: nat := 3
  const UnitColumn: nat := 4
  const JabatanColumn: nat := 5
  /** Columns 6..12 hold the seven early-leave tiers, 13..19 the seven lateness tiers. */
  const FirstTierColumn: nat := 6
  const TiersPerKind: nat := 7

  /** Columns the unit/jabatan loader reads, and the full width the tier loaders read. */
  const NameWidth: nat := 6
  const TierWidth: nat := 20

  /** The data frame is rectangular: every row has at least `width` cells. */
  predicate Wide(sheet: Sheet, width: nat) {
    forall i :: 0 <= i < |sheet| ==> |sheet[i]| >= width
  }

  /** Python's `str()` of a cell. */
  function Str(c: Cell): string {
    match c
    case NaN => "nan"
    case Text(t) => t
    case Int(n) => IntToString(n)
  }

  /** `pd.isna(row[1]) or row[1] == 'NO'`: a blank row or a repeated header row. */
  predicate IsHeaderOrBlank(row: Row)
    requires |row| > NoColumn
  {
    row[NoColumn].NaN? || row[NoColumn] == Text("NO")
  }

  /** `str(row[4]) if pd.notna(row[4]) and str(row[4]) != 'nan' else ''` */
  function UnitText(c: Cell): string {
    if !c.NaN? && Str(c) != "nan" then Str(c) else ""
  }

  /** `str(row[k]) if pd.notna(row[k]) else ''`: the jabatan and the other text columns. */
  function TextOrEmpty(c: Cell): string {
    if c.NaN? then "" else Str(c)
  }

  /** A unit or jabatan the loaders keep: non-empty and not '0'. */
  predicate IsName(s: string) {
    s != "" && s != "0"
  }

  /**
   * The unit a processed row gets, which is also the new `last_valid_unit`:
   * its own unit cell when that is a name, otherwise the last one seen.
   */
  function CarriedUnit(c: Cell, last: string): string {
    var current := UnitText(c);
    if IsName(current) then current else last
  }

  /**
   * Lines 21-25 of the loop: read the unit cell, then either remember it as
   * the last valid unit or fall back to the one remembered.
   */
  method CarryUnit(c: Cell, lastValidUnit: string) returns (currentUnit: string, lastValidUnit': string)
    ensures currentUnit == lastValidUnit' == CarriedUnit(c, lastValidUnit)
  {
    currentUnit := UnitText(c);
    lastValidUnit' := lastValidUnit;
    if currentUnit != "" && currentUnit != "0" {
      lastValidUnit' := currentUnit;
    } else if currentUnit == "" || currentUnit == "0" || currentUnit == "nan" {
      currentUnit := lastValidUnit;
    }
  }

  /** `last_valid_unit` after the loop has visited rows FirstDataRow .. n-1. */
  function LastUnit(sheet: Sheet, n: nat): string
    requires n <= |sheet| && Wide(sheet, NameWidth)
  {
    if n <= FirstDataRow then ""
    else if IsHeaderOrBlank(sheet[n - 1]) then LastUnit(sheet, n - 1)
    else CarriedUnit(sheet[n - 1][UnitColumn], LastUnit(sheet, n - 1))
  }

  /** One more row visited: a header or blank row keeps the carried unit, a data row may replace it. */
  lemma LastUnitStep(sheet: Sheet, n: nat)
    requires FirstDataRow < n <= |sheet| && Wide(sheet, NameWidth)
    ensures LastUnit(sheet, n) ==
      if IsHeaderOrBlank(sheet[n - 1]) then LastUnit(sheet, n - 1)
      else CarriedUnit(sheet[n - 1][UnitColumn], LastUnit(sheet, n - 1))
  {
  }

  /** A data row with a unit cell that names a unit (it resets the carried unit). */
  predicate SetsUnit(sheet: Sheet, j: nat)
    requires j < |sheet| && Wide(sheet, NameWidth)
  {
    !IsHeaderOrBlank(sheet[j]) && IsName(UnitText(sheet[j][UnitColumn]))
  }

  /** Row `j` is a data row whose unit cell names `u`. */
  predicate NamesUnit(sheet: Sheet, j: nat, u: string)
    requires j < |sheet| && Wide(sheet, NameWidth)
  {
    SetsUnit(sheet, j) && UnitText(sheet[j][UnitColumn]) == u
  }

  /**
   * `u` is what carry-forward leaves after rows FirstDataRow .. n-1: empty
   * while no data row has named a unit, and otherwise the unit cell of the
   * latest data row that did.
   */
  predicate IsLatestUnit(sheet: Sheet, n: nat, u: string)
    requires n <= |sheet| && Wide(sheet, NameWidth)
  {
    || (u == "" && forall j :: FirstDataRow <= j < n ==> !SetsUnit(sheet, j))
    || (exists j :: FirstDataRow <= j < n && NamesUnit(sheet, j, u) && forall k :: j < k < n ==> !SetsUnit(sheet, k))
  }

  /** Carry-forward: the carried unit is the latest unit a data row named, or "" before any. */
  lemma {:induction false} LastUnitIsLatest(sheet: Sheet, n: nat)
    requires n <= |sheet| && Wide(sheet, NameWidth)
    ensures IsLatestUnit(sheet, n, LastUnit(sheet, n))
  {
    if n > FirstDataRow {
      LastUnitIsLatest(sheet, n - 1);
      LatestUnitStep(sheet, n);
    }
  }

  /** Visiting row `n - 1` keeps the carried unit the latest one named. */
  lemma LatestUnitStep(sheet: Sheet, n: nat)
    requires FirstDataRow < n <= |sheet| && Wide(sheet, NameWidth)
    requires IsLatestUnit(sheet, n - 1, LastUnit(sheet, n - 1))
    ensures IsLatestUnit(sheet, n, LastUnit(sheet, n))
  {
    LastUnitStep(sheet, n);
    var u := LastUnit(sheet, n - 1);
    if SetsUnit(sheet, n - 1) {
      assert NamesUnit(sheet, n - 1, LastUnit(sheet, n));
    } else {
      assert LastUnit(sheet, n) == u;
      if u == "" && forall j :: FirstDataRow <= j < n - 1 ==> !SetsUnit(sheet, j) {
        assert forall j :: FirstDataRow <= j < n ==> !SetsUnit(sheet, j);
      } else {
        var j :| FirstDataRow <= j < n - 1 && NamesUnit(sheet, j, u) && forall k :: j < k < n - 1 ==> !SetsUnit(sheet, k);
        assert forall k :: j < k < n ==> !SetsUnit(sheet, k);
      }
    }
  }

  // ----- Python's int() on a text cell -----

  /** The ASCII characters Python's `int()` strips around its argument. */
  predicate IsSpace(c: char) {
    c == ' ' || 9 <= c as int <= 13 || 28 <= c as int <= 31
  }

  function TrimStart(s: string): (t: string)
    ensures |t| <= |s|
  {
    if |s| > 0 && IsSpace(s[0]) then TrimStart(s[1..]) else s
  }

  function TrimEnd(s: string): (t: string)
    ensures |t| <= |s|
  {
    if |s| > 0 && IsSpace(s[|s| - 1]) then TrimEnd(s[..|s| - 1]) else s
  }

  /** Decimal digits with single underscores between them, as Python's `int()` accepts. */
  predicate IsDigitGroups(t: string) {
    && |t| > 0
    && IsDigit(t[0])
    && IsDigitsOrUnderscores(t)
    && forall i :: 0 <= i < |t| ==> IsDigit(t[i]) || (t[i] == '_' && i + 1 < |t| && IsDigit(t[i + 1]))
  }

  /** Python's `int(s)` for a `str` argument: `None` where it raises ValueError. */
  function PyInt(s: string): Option<int> {
    var t := TrimEnd(TrimStart(s));
    if |t| > 0 && (t[0] == '+' || t[0] == '-') then
      if IsDigitGroups(t[1..]) then
        var magnitude: int := DigitsValue(t[1..]);
        Some(if t[0] == '-' then -magnitude else magnitude)
      else None
    else if IsDigitGroups(t) then Some(DigitsValue(t))
    else None
  }

  /** `int()` reads back what `str()` writes for every integer. */
  lemma PyIntRoundTrip(n: int)
    ensures PyInt(IntToString(n)) == Some(n)
  {
    var s := IntToString(n);
    var m: nat := if n < 0 then -n else n;
    var digits := NatToString(m);
    assert TrimStart(digits) == digits;
    NatToStringRoundTrip(m);
    if n < 0 {
      assert s == "-" + digits;
      assert TrimStart(s) == s;
      assert TrimEnd(s) == s;
      assert s[1..] == digits;
    } else {
      assert s == digits;
      assert TrimEnd(digits) == digits;
    }
  }

  /** `int(row[k]) if pd.notna(row[k]) and row[k] != 0 else 0`; `None` where `int()` raises. */
  function TierValue(c: Cell): (r: Option<int>)
    ensures c.NaN? ==> r == Some(0)
    ensures c.Int? ==> r == Some(c.value)
    ensures c.Text? ==> r == PyInt(c.text)
  {
    match c
    case NaN => Some(0)
    case Int(n) => if n != 0 then Some(n) else Some(0)
    case Text(t) => PyInt(t)
  }

  /**
   * The tier cells `row[from] .. row[to-1]` in order, as the dict literal
   * evaluates them; `None` as soon as one of them fails to convert.
   */
  function TierValues(row: Row, from: nat, to: nat): (r: Option<seq<int>>)
    requires from <= to <= |row|
    ensures r.Some? ==> |r.value| == to - from
    decreases (to as int) - (from as int)
  {
    if from == to then Some([])
    else
      match TierValue(row[from])
      case None => None
      case Some(v) =>
        match TierValues(row, from + 1, to)
        case None => None
        case Some(vs) => Some([v] + vs)
  }

  /**
   * The tier list is there exactly when every cell converts, and then it
   * holds each cell's converted value at that cell's offset.
   */
  lemma {:induction false} TierValuesConvertEachCell(row: Row, from: nat, to: nat)
    requires from <= to <= |row|
    ensures TierValues(row, from, to).Some? <==> forall k :: from <= k < to ==> TierValue(row[k]).Some?
    ensures TierValues(row, from, to).Some? ==>
      forall k :: from <= k < to ==> TierValues(row, from, to).value[k - from] == TierValue(row[k]).value
    decreases (to as int) - (from as int)
  {
    if from < to {
      TierValuesConvertEachCell(row, from + 1, to);
      match TierValue(row[from])
      case None =>
        assert TierValues(row, from, to).None?;
      case Some(v) =>
        match TierValues(row, from + 1, to)
        case None =>
          assert TierValues(row, from, to).None?;
        case Some(vs) =>
          var r := TierValues(row, from, to).value;
          assert r == [v] + vs;
          forall k | from <= k < to
            ensures r[k - from] == TierValue(row[k]).value
          {
            if k > from { assert r[k - from] == vs[k - (from + 1)]; }
          }
    }
  }

  // ----- the unit/jabatan loader of api/positions.py and api/units.py -----

  datatype Assignment = Assignment(unit: string, jabatan: string)

  /** What a data row contributes once its unit is known. */
  function RowAssignment(row: Row, unit: string): seq<Assignment>
    requires |row| >= NameWidth
  {
    var jabatan := TextOrEmpty(row[JabatanColumn]);
    if IsName(unit) && IsName(jabatan) then [Assignment(unit, jabatan)] else []
  }

  /** The list `load_employee_data` has built after visiting rows FirstDataRow .. n-1. */
  function Assignments(sheet: Sheet, n: nat): seq<Assignment>
    requires n <= |sheet| && Wide(sheet, NameWidth)
  {
    if n <= FirstDataRow then []
    else if IsHeaderOrBlank(sheet[n - 1]) then Assignments(sheet, n - 1)
    else Assignments(sheet, n - 1) + RowAssignment(sheet[n - 1], LastUnit(sheet, n))
  }

  /** One more row visited: a header or blank row adds nothing, a data row adds its pair, if any. */
  lemma AssignmentsStep(sheet: Sheet, n: nat)
    requires FirstDataRow < n <= |sheet| && Wide(sheet, NameWidth)
    ensures Assignments(sheet, n) == Assignments(sheet, n - 1) +
      (if IsHeaderOrBlank(sheet[n - 1]) then [] else RowAssignment(sheet[n - 1], LastUnit(sheet, n)))
  {
  }

  /** `load_employee_data()` of api/positions.py (api/units.py holds the same loop). */
  method LoadAssignments(sheet: Sheet) returns (employees: seq<Assignment>)
    requires Wide(sheet, NameWidth)
    ensures employees == Assignments(sheet, |sheet|)
  {
    employees := [];
    var lastValidUnit := "";
    var i := if |sheet| < FirstDataRow then |sheet| else FirstDataRow;
    while i < |sheet|
      invariant FirstDataRow <= i <= |sheet| || i == |sheet|
      invariant employees == Assignments(sheet, i)
      invariant lastValidUnit == LastUnit(sheet, i)
    {
      var row := sheet[i];
      // The source's second skip test, `pd.isna(row[1]) and str(row[2]) == '0'`,
      // can never hold once this first one has failed, so it is not repeated here.
      if IsHeaderOrBlank(row) {
        // skipped before the carried unit is looked at
      } else {
        var currentUnit;
        currentUnit, lastValidUnit := CarryUnit(row[UnitColumn], lastValidUnit);
        var employee := Assignment(currentUnit, TextOrEmpty(row[JabatanColumn]));
        if employee.unit != "" && employee.unit != "0" && employee.jabatan != "" && employee.jabatan != "0" {
          employees := employees + [employee];
        }
      }
      i := i + 1;
    }
  }

  /** Every pair has a unit and a jabatan that are names. */
  predicate AllNamed(pairs: seq<Assignment>) {
    forall a :: a in pairs ==> IsName(a.unit) && IsName(a.jabatan)
  }

  /** Every loaded pair has a unit and a jabatan that are names. */
  lemma {:induction false} LoadedPairsAreNamed(sheet: Sheet, n: nat)
    requires n <= |sheet| && Wide(sheet, NameWidth)
    ensures AllNamed(Assignments(sheet, n))
  {
    if n > FirstDataRow {
      LoadedPairsAreNamed(sheet, n - 1);
      NamedPairStep(sheet, n);
    }
  }

  /** Visiting row `n - 1` keeps every loaded pair named. */
  lemma NamedPairStep(sheet: Sheet, n: nat)
    requires FirstDataRow < n <= |sheet| && Wide(sheet, NameWidth)
    requires AllNamed(Assignments(sheet, n - 1))
    ensures AllNamed(Assignments(sheet, n))
  {
    AssignmentsStep(sheet, n);
    var prev := Assignments(sheet, n - 1);
    var row: seq<Assignment> := if IsHeaderOrBlank(sheet[n - 1]) then [] else RowAssignment(sheet[n - 1], LastUnit(sheet, n));
    assert Assignments(sheet, n) == prev + row;
    forall a | a in prev + row
      ensures IsName(a.unit) && IsName(a.jabatan)
    {
      if a !in prev {
        assert a in row;
      }
    }
  }

  /** Rows 0-7 never matter: sheets that agree from row 8 on load the same list. */
  lemma {:induction false} TitleRowsIgnored(a: Sheet, b: Sheet, n: nat)
    requires |a| == |b| && n <= |a| && Wide(a, NameWidth) && Wide(b, NameWidth)
    requires forall i :: FirstDataRow <= i < |a| ==> a[i] == b[i]
    ensures Assignments(a, n) == Assignments(b, n) && LastUnit(a, n) == LastUnit(b, n)
  {
    if n > FirstDataRow {
      TitleRowsIgnored(a, b, n - 1);
    }
  }

  /** Some data row below `n` names `u`. */
  predicate NamedBelow(sheet: Sheet, n: nat, u: string)
    requires n <= |sheet| && Wide(sheet, NameWidth)
  {
    exists j :: FirstDataRow <= j < n && NamesUnit(sheet, j, u)
  }

  /** Every loaded unit is the unit cell of some data row: units are never invented. */
  lemma {:induction false} LoadedUnitsComeFromSheet(sheet: Sheet, n: nat)
    requires n <= |sheet| && Wide(sheet, NameWidth)
    ensures forall a :: a in Assignments(sheet, n) ==> NamedBelow(sheet, n, a.unit)
  {
    if n > FirstDataRow {
      LoadedUnitsComeFromSheet(sheet, n - 1);
      UnitFromSheetStep(sheet, n);
    }
  }

  /** Visiting row `n - 1` adds only a unit that some data row names. */
  lemma UnitFromSheetStep(sheet: Sheet, n: nat)
    requires FirstDataRow < n <= |sheet| && Wide(sheet, NameWidth)
    requires forall a :: a in Assignments(sheet, n - 1) ==> NamedBelow(sheet, n - 1, a.unit)
    ensures forall a :: a in Assignments(sheet, n) ==> NamedBelow(sheet, n, a.unit)
  {
    AssignmentsStep(sheet, n);
    var prev := Assignments(sheet, n - 1);
    var row: seq<Assignment> := if IsHeaderOrBlank(sheet[n - 1]) then [] else RowAssignment(sheet[n - 1], LastUnit(sheet, n));
    assert Assignments(sheet, n) == prev + row;
    forall a | a in prev + row
      ensures NamedBelow(sheet, n, a.unit)
    {
      if a in prev {
        assert NamedBelow(sheet, n - 1, a.unit);
        var j :| FirstDataRow <= j < n - 1 && NamesUnit(sheet, j, a.unit);
        assert FirstDataRow <= j < n && NamesUnit(sheet, j, a.unit);
      } else {
        assert a in row && a.unit == LastUnit(sheet, n) && a.unit != "";
        LastUnitIsLatest(sheet, n);
      }
    }
  }
}

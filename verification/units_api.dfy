/** api/units.py: the sorted, de-duplicated units of the sheet. */
module UnitsApi {
  import opened Roster
  import opened Strings
  import PositionsApi

  /** `[emp['unit'] for emp in employees if emp['unit']]` */
  function UnitsIn(employees: seq<Assignment>): (r: seq<string>)
    ensures forall u :: u in r <==> u != "" && exists a :: a in employees && a.unit == u
  {
    if employees == [] then []
    else
      var e := employees[0];
      (if e.unit != "" then [e.unit] else []) + UnitsIn(employees[1..])
  }

  /** `list(set(...))` followed by `units.sort()`. */
  function Units(employees: seq<Assignment>): (r: seq<string>)
    ensures StrictlyAscending(r)
    ensures forall u :: u in r <==> u != "" && exists a :: a in employees && a.unit == u
  {
    SortedDistinct(UnitsIn(employees))
  }

  /** `do_GET`: every unit a kept row carries, once each, ascending, never '' or '0'. */
  method HandleGet(sheet: Sheet) returns (units: seq<string>)
    requires Wide(sheet, NameWidth)
    ensures StrictlyAscending(units)
    ensures forall u :: u in units <==> exists a :: a in Assignments(sheet, |sheet|) && a.unit == u
    ensures forall u :: u in units ==> IsName(u)
  {
    var employees := LoadAssignments(sheet);
    LoadedPairsAreNamed(sheet, |sheet|);
    units := Units(employees);
  }

  /**
   * Every listed unit is the unit cell of some data row of the sheet (the
   * loader of api/units.py carries units forward exactly as the shared one).
   */
  lemma ListedUnitsComeFromSheet(sheet: Sheet, u: string)
    requires Wide(sheet, NameWidth)
    requires u in Units(Assignments(sheet, |sheet|))
    ensures exists j :: FirstDataRow <= j < |sheet| && SetsUnit(sheet, j) && UnitText(sheet[j][UnitColumn]) == u
  {
    LoadedUnitsComeFromSheet(sheet, |sheet|);
  }

  /** Every unit the unit list offers has at least one position to pick. */
  lemma ListedUnitsHavePositions(employees: seq<Assignment>, u: string)
    requires u in Units(employees)
    ensures PositionsApi.Positions(employees, u) != []
  {
    var a :| a in employees && a.unit == u;
    assert a.jabatan in PositionsApi.Positions(employees, u);
  }
}

/** api/positions.py: the sorted, de-duplicated jabatans of one unit. */
module PositionsApi {
  import opened Roster
  import opened Strings

  /** `[emp['jabatan'] for emp in employees if emp['unit'] == unit]` */
  function JabatansIn(employees: seq<Assignment>, unit: string): (r: seq<string>)
    ensures forall j :: j in r <==> Assignment(unit, j) in employees
  {
    if employees == [] then []
    else
      var e := employees[0];
      (if e.unit == unit then [e.jabatan] else []) + JabatansIn(employees[1..], unit)
  }

  /** `list(set(...))` followed by `positions.sort()`. */
  function Positions(employees: seq<Assignment>, unit: string): (r: seq<string>)
    ensures StrictlyAscending(r)
    ensures forall j :: j in r <==> Assignment(unit, j) in employees
  {
    SortedDistinct(JabatansIn(employees, unit))
  }

  /** `do_GET` with the query's unit ('' when absent); it always answers success=True. */
  method HandleGet(sheet: Sheet, unit: string) returns (positions: seq<string>)
    requires Wide(sheet, NameWidth)
    ensures StrictlyAscending(positions)
    ensures forall j :: j in positions <==> Assignment(unit, j) in Assignments(sheet, |sheet|)
    ensures forall i, j :: 0 <= i < j < |positions| ==> positions[i] != positions[j]
  {
    var employees := LoadAssignments(sheet);
    positions := Positions(employees, unit);
    AscendingIsDistinct(positions);
  }

  /** A unit no row carries, the empty unit among them, lists no positions. */
  lemma {:induction false} UnknownUnitHasNoPositions(employees: seq<Assignment>, unit: string)
    requires forall a :: a in employees ==> a.unit != unit
    ensures JabatansIn(employees, unit) == [] && Positions(employees, unit) == []
  {
    if employees != [] {
      UnknownUnitHasNoPositions(employees[1..], unit);
    }
  }
}

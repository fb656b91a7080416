/**
 * public/app.js: the deduction calculator page. A list of incidents
 * (lateness or early leave, in minutes) is collected for one employee
 * (unit, jabatan) and priced in one batch through the deduction lookup.
 * The page's module-level `incidents` and `currentEmployee` are the fields
 * of an `IncidentBoard`; `confirm()` answers and `Date.now()` are parameters.
 */
module Incidents {
  import opened Wrappers
  import opened Lookup

  const LateKind: string := "terlambat"

  datatype Incident = Incident(id: int, kind: string, minutes: int, typeLabel: string)
  datatype Employee = Employee(unit: string, jabatan: string)

  /** The calculator form; `minutes` is `parseInt`'s result, `None` for NaN. */
  datatype Entry = Entry(unit: string, jabatan: string, kind: string, minutes: Option<int>)

  /** `unit && jabatan && type && minutes`: every field set and minutes neither NaN nor 0. */
  predicate Filled(e: Entry) {
    e.unit != "" && e.jabatan != "" && e.kind != "" && e.minutes.Some? && e.minutes.value != 0
  }

  /** `handleCalculate`: the request it sends for a filled form, none otherwise. */
  function CalculateRequest(e: Entry): (r: Option<Request>)
    ensures r.Some? <==> Filled(e)
    ensures r.Some? ==>
      && r.value.unit == e.unit && r.value.jabatan == e.jabatan
      && r.value.kind == e.kind && r.value.minutes == e.minutes.value && r.value.minutes != 0
  {
    if e.unit == "" || e.jabatan == "" || e.kind == "" || e.minutes.None? || e.minutes.value == 0 then None
    else Some(Request(e.unit, e.jabatan, e.kind, e.minutes.value))
  }

  function TypeLabel(kind: string): string {
    if kind == LateKind then "Terlambat Datang" else "Pulang Lebih Awal"
  }

  /** The incident an add pushes for a filled form at time `now`. */
  function NewIncident(e: Entry, now: int): Incident
    requires Filled(e)
  {
    Incident(now, e.kind, e.minutes.value, TypeLabel(e.kind))
  }

  /** The add would start a list for another employee (and asks to drop the current one). */
  predicate Switches(incidents: seq<Incident>, current: Employee, e: Entry) {
    |incidents| > 0 && (current.unit != e.unit || current.jabatan != e.jabatan)
  }

  /** `incidents.filter(inc => inc.id !== id)` */
  function WithoutId(incidents: seq<Incident>, id: int): (r: seq<Incident>)
    ensures |r| <= |incidents|
    ensures forall x :: x in r <==> x in incidents && x.id != id
  {
    if incidents == [] then []
    else
      var n := |incidents| - 1;
      WithoutId(incidents[..n], id) + (if incidents[n].id != id then [incidents[n]] else [])
  }

  /** Removal keeps order: it acts on each part of a list separately. */
  lemma {:induction false} WithoutIdAppend(a: seq<Incident>, b: seq<Incident>, id: int)
    ensures WithoutId(a + b, id) == WithoutId(a, id) + WithoutId(b, id)
  {
    if b == [] {
      assert a + b == a;
    } else {
      var n := |b| - 1;
      assert (a + b)[..|a + b| - 1] == a + b[..n];
      WithoutIdAppend(a, b[..n], id);
    }
  }

  /** Splitting off the last incident and putting it back gives the same list. */
  lemma InitPlusLast(s: seq<Incident>)
    requires s != []
    ensures s[..|s| - 1] + [s[|s| - 1]] == s
  {
  }

  /** Removing an id that is not listed changes nothing. */
  lemma {:induction false} WithoutAbsentId(incidents: seq<Incident>, id: int)
    requires forall k :: 0 <= k < |incidents| ==> incidents[k].id != id
    ensures WithoutId(incidents, id) == incidents
  {
    if incidents != [] {
      var n := |incidents| - 1;
      var init := incidents[..n];
      assert forall k :: 0 <= k < |init| ==> init[k] == incidents[k];
      WithoutAbsentId(init, id);
      assert incidents[n].id != id;
      assert WithoutId(incidents, id) == WithoutId(init, id) + [incidents[n]];
      InitPlusLast(incidents);
    }
  }

  // ----- the batch -----

  /** One priced incident: `{type, minutes, deduction}`. */
  datatype Priced = Priced(kind: string, minutes: int, deduction: int)

  datatype BatchResult = NoIncidents | BatchFailed | Batch(details: seq<Priced>, total: nat)

  function RequestFor(current: Employee, inc: Incident): Request {
    Request(current.unit, current.jabatan, inc.kind, inc.minutes)
  }

  /** No lookup for these incidents throws. */
  predicate NoThrow(current: Employee, incs: seq<Incident>, lookup: Request -> Reply) {
    forall k :: 0 <= k < |incs| ==> !lookup(RequestFor(current, incs[k])).Threw?
  }

  /** `details`: the successful lookups, in incident order. */
  function BatchDetails(current: Employee, incs: seq<Incident>, lookup: Request -> Reply): (d: seq<Priced>)
    ensures |d| <= |incs|
    ensures forall p :: p in d ==>
      exists k :: && 0 <= k < |incs| && Succeeded(lookup(RequestFor(current, incs[k])))
                  && p == Priced(incs[k].kind, incs[k].minutes, lookup(RequestFor(current, incs[k])).deduction)
  {
    if incs == [] then []
    else
      var n := |incs| - 1;
      var reply := lookup(RequestFor(current, incs[n]));
      BatchDetails(current, incs[..n], lookup)
        + (if Succeeded(reply) then [Priced(incs[n].kind, incs[n].minutes, reply.deduction)] else [])
  }

  /** One incident gives its priced entry when its lookup succeeds, and nothing otherwise. */
  lemma BatchDetailsSingle(current: Employee, inc: Incident, lookup: Request -> Reply)
    ensures BatchDetails(current, [inc], lookup) ==
      if Succeeded(lookup(RequestFor(current, inc)))
      then [Priced(inc.kind, inc.minutes, lookup(RequestFor(current, inc)).deduction)]
      else []
  {
    assert [inc][..0] == [];
  }

  /** The details keep incident order: they are built part by part along the list. */
  lemma {:induction false} BatchDetailsAppend(current: Employee, a: seq<Incident>, b: seq<Incident>, lookup: Request -> Reply)
    ensures BatchDetails(current, a + b, lookup) == BatchDetails(current, a, lookup) + BatchDetails(current, b, lookup)
  {
    if b == [] {
      assert a + b == a;
    } else {
      var n := |b| - 1;
      assert (a + b)[..|a + b| - 1] == a + b[..n];
      BatchDetailsAppend(current, a, b[..n], lookup);
    }
  }

  /** Every successful lookup has its entry among the details. */
  lemma {:induction false} SuccessesAreListed(current: Employee, incs: seq<Incident>, lookup: Request -> Reply)
    ensures forall k :: 0 <= k < |incs| && Succeeded(lookup(RequestFor(current, incs[k]))) ==>
      Priced(incs[k].kind, incs[k].minutes, lookup(RequestFor(current, incs[k])).deduction) in BatchDetails(current, incs, lookup)
  {
    if incs != [] {
      var n := |incs| - 1;
      var init := incs[..n];
      SuccessesAreListed(current, init, lookup);
      var before := BatchDetails(current, init, lookup);
      var d := BatchDetails(current, incs, lookup);
      assert before <= d;
      forall k | 0 <= k < |incs| && Succeeded(lookup(RequestFor(current, incs[k])))
        ensures Priced(incs[k].kind, incs[k].minutes, lookup(RequestFor(current, incs[k])).deduction) in d
      {
        if k < n {
          assert incs[k] == init[k];
          assert Priced(incs[k].kind, incs[k].minutes, lookup(RequestFor(current, incs[k])).deduction) in before;
        }
      }
    }
  }

  /** `total`: the sum of |deduction| over the successful lookups. */
  function BatchTotal(current: Employee, incs: seq<Incident>, lookup: Request -> Reply): nat {
    if incs == [] then 0
    else
      var n := |incs| - 1;
      BatchTotal(current, incs[..n], lookup) + Contribution(lookup(RequestFor(current, incs[n])))
  }

  function SumAbs(d: seq<Priced>): nat {
    if d == [] then 0 else SumAbs(d[..|d| - 1]) + Abs(d[|d| - 1].deduction)
  }

  /** The total shown is the sum of the deductions listed in the details. */
  lemma {:induction false} TotalMatchesDetails(current: Employee, incs: seq<Incident>, lookup: Request -> Reply)
    ensures BatchTotal(current, incs, lookup) == SumAbs(BatchDetails(current, incs, lookup))
  {
    if incs != [] {
      var n := |incs| - 1;
      TotalMatchesDetails(current, incs[..n], lookup);
      var d := BatchDetails(current, incs, lookup);
      var reply := lookup(RequestFor(current, incs[n]));
      var before := BatchDetails(current, incs[..n], lookup);
      if Succeeded(reply) {
        var p := Priced(incs[n].kind, incs[n].minutes, reply.deduction);
        assert d == before + [p];
        assert d[..|d| - 1] == before;
        assert SumAbs(d) == SumAbs(before) + Abs(reply.deduction);
      } else {
        assert d == before;
      }
    }
  }

  class IncidentBoard {
    var incidents: seq<Incident>
    var currentEmployee: Employee

    constructor ()
      ensures incidents == [] && currentEmployee == Employee("", "")
    {
      incidents := [];
      currentEmployee := Employee("", "");
    }

    /** `handleJabatanChange`: both selects set makes them the current employee. */
    method HandleJabatanChange(unit: string, jabatan: string)
      modifies this
      ensures incidents == old(incidents)
      ensures unit != "" && jabatan != "" ==> currentEmployee == Employee(unit, jabatan)
      ensures unit == "" || jabatan == "" ==> currentEmployee == old(currentEmployee)
      ensures unit != "" && jabatan != "" ==>
        forall e: Entry :: e.unit == unit && e.jabatan == jabatan ==> !Switches(incidents, currentEmployee, e)
    {
      if unit == "" || jabatan == "" {
        return;
      }
      currentEmployee := Employee(unit, jabatan);
    }

    /**
     * `handleAddIncident`. `confirmed` is the answer to the switch-employee
     * question (only asked when `Switches`), `now` is `Date.now()`.
     */
    method HandleAddIncident(e: Entry, confirmed: bool, now: int)
      modifies this
      ensures !Filled(e) ==> incidents == old(incidents) && currentEmployee == old(currentEmployee)
      ensures Filled(e) && Switches(old(incidents), old(currentEmployee), e) && !confirmed ==>
        incidents == old(incidents) && currentEmployee == old(currentEmployee)
      ensures Filled(e) && Switches(old(incidents), old(currentEmployee), e) && confirmed ==>
        incidents == [NewIncident(e, now)] && currentEmployee == Employee(e.unit, e.jabatan)
      ensures Filled(e) && !Switches(old(incidents), old(currentEmployee), e) ==>
        incidents == old(incidents) + [NewIncident(e, now)] && currentEmployee == Employee(e.unit, e.jabatan)
    {
      if e.unit == "" || e.jabatan == "" || e.kind == "" || e.minutes.None? || e.minutes.value == 0 {
        return;
      }
      if |incidents| > 0 && (currentEmployee.unit != e.unit || currentEmployee.jabatan != e.jabatan) {
        if !confirmed {
          return;
        }
        incidents := [];
      }
      currentEmployee := Employee(e.unit, e.jabatan);
      incidents := incidents + [Incident(now, e.kind, e.minutes.value, if e.kind == LateKind then "Terlambat Datang" else "Pulang Lebih Awal")];
    }

    /** `removeIncident` */
    method RemoveIncident(id: int)
      modifies this
      ensures incidents == WithoutId(old(incidents), id)
      ensures currentEmployee == old(currentEmployee)
    {
      incidents := WithoutId(incidents, id);
    }

    /** `handleClearAll`; `confirmed` is the answer to its question. */
    method HandleClearAll(confirmed: bool)
      modifies this
      ensures confirmed ==> incidents == []
      ensures !confirmed ==> incidents == old(incidents)
      ensures currentEmployee == old(currentEmployee)
    {
      if confirmed {
        incidents := [];
      }
    }

    /**
     * `handleCalculateBatch`: `asked` counts the lookups made. The first
     * thrown error ends the batch with nothing shown.
     */
    method HandleCalculateBatch(lookup: Request -> Reply) returns (asked: nat, result: BatchResult)
      ensures incidents == [] ==> asked == 0 && result == NoIncidents
      ensures incidents != [] && NoThrow(currentEmployee, incidents, lookup) ==>
        asked == |incidents| && result == Batch(BatchDetails(currentEmployee, incidents, lookup), BatchTotal(currentEmployee, incidents, lookup))
      ensures incidents != [] && !NoThrow(currentEmployee, incidents, lookup) ==>
        && result == BatchFailed && 0 < asked <= |incidents|
        && NoThrow(currentEmployee, incidents[..asked - 1], lookup)
        && lookup(RequestFor(currentEmployee, incidents[asked - 1])).Threw?
    {
      if |incidents| == 0 {
        return 0, NoIncidents;
      }
      var details: seq<Priced> := [];
      var total := 0;
      asked := 0;
      while asked < |incidents|
        invariant asked <= |incidents|
        invariant NoThrow(currentEmployee, incidents[..asked], lookup)
        invariant details == BatchDetails(currentEmployee, incidents[..asked], lookup)
        invariant total == BatchTotal(currentEmployee, incidents[..asked], lookup)
      {
        var incident := incidents[asked];
        var reply := lookup(Request(currentEmployee.unit, currentEmployee.jabatan, incident.kind, incident.minutes));
        asked := asked + 1;
        assert incidents[..asked][..asked - 1] == incidents[..asked - 1];
        if reply.Threw? {
          return asked, BatchFailed;
        }
        if reply.success {
          details := details + [Priced(incident.kind, incident.minutes, reply.deduction)];
          total := total + Abs(reply.deduction);
        }
      }
      assert incidents[..asked] == incidents;
      result := Batch(details, total);
    }
  }
}

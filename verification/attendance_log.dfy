/**
 * app.js: building and storing an attendance record (`handleSaveAttendance`,
 * `saveRecord`), and reading one employee's records back
 * (`getEmployeeRecords`, the counters of `loadEmployeeSummary`, the issue
 * filter of `displayHistory`). The browser's local storage is the
 * `records` field of an `AttendanceBook`.
 */
module AttendanceLog {
  import opened Wrappers
  import opened Decimal
  import opened ClockTime
  import opened Lookup

  /** A calendar date `YYYY-MM-DD`; equal texts are equal dates. */
  datatype Date = Date(year: int, month: int, day: int)

  /** `a` comes before `b` on the calendar. */
  predicate Earlier(a: Date, b: Date) {
    a.year < b.year || (a.year == b.year && (a.month < b.month || (a.month == b.month && a.day < b.day)))
  }

  datatype Record = Record(
    date: Date, unit: string, jabatan: string, arrival: string, departure: string,
    lateMinutes: int, earlyMinutes: int, deduction: Option<int>, status: string)

  /** The attendance form; `date` is `None` while the date input is empty. */
  datatype Form = Form(unit: string, jabatan: string, date: Option<Date>, arrival: string, departure: string)

  /** `unit && jabatan && date`: the check before anything is looked up or saved. */
  predicate Complete(f: Form) {
    f.unit != "" && f.jabatan != "" && f.date.Some?
  }

  predicate TimesGiven(f: Form) {
    IsClock(f.arrival) && IsClock(f.departure)
  }

  const OnTimeStatus: string := "Tepat Waktu"
  const LateKind: string := "terlambat"
  const EarlyKind: string := "pulang_awal"

  function LateOf(f: Form): nat
    requires TimesGiven(f)
  {
    Lateness(f.arrival, WorkStart)
  }

  function EarlyOf(f: Form): nat
    requires TimesGiven(f)
  {
    EarlyLeave(f.departure, WorkEnd)
  }

  /** The deduction lookups a save issues, in the order it issues them. */
  function Requests(f: Form): (rs: seq<Request>)
    requires TimesGiven(f)
    ensures |rs| <= 2
    ensures forall k :: 0 <= k < |rs| ==> rs[k].unit == f.unit && rs[k].jabatan == f.jabatan && rs[k].minutes > 0
    ensures Request(f.unit, f.jabatan, LateKind, LateOf(f)) in rs <==> LateOf(f) > GraceMinutes
    ensures Request(f.unit, f.jabatan, EarlyKind, EarlyOf(f)) in rs <==> EarlyOf(f) > 0
    ensures forall k :: 0 <= k < |rs| ==> rs[k].kind == LateKind || rs[k].kind == EarlyKind
    ensures |rs| == 2 ==> rs[0].kind == LateKind && rs[1].kind == EarlyKind
  {
    (if LateOf(f) > GraceMinutes then [Request(f.unit, f.jabatan, LateKind, LateOf(f))] else [])
    + (if EarlyOf(f) > 0 then [Request(f.unit, f.jabatan, EarlyKind, EarlyOf(f))] else [])
  }

  /** The status fragment for a successful lookup: `Telat {n}m` or `Pulang Awal {n}m`. */
  function Detail(req: Request): (s: string)
    ensures |s| > 2 && s[2] == 'l'
  {
    if req.kind == LateKind then "Telat " + IntToString(req.minutes) + "m"
    else "Pulang Awal " + IntToString(req.minutes) + "m"
  }

  /** Every entry is a status fragment: its third character is the 'l' of "Telat" or "Pulang". */
  predicate AllFragments(d: seq<string>) {
    forall i :: 0 <= i < |d| ==> |d[i]| > 2 && d[i][2] == 'l'
  }

  /** `statusDetails`: the fragments of the lookups that succeeded, in request order. */
  function Details(reqs: seq<Request>, replies: seq<Reply>): (d: seq<string>)
    requires |reqs| == |replies|
    ensures |d| <= |reqs|
    ensures d == [] <==> NoneSucceeded(replies)
    ensures AllFragments(d)
  {
    if reqs == [] then []
    else
      var n := |reqs| - 1;
      Details(reqs[..n], replies[..n]) + (if Succeeded(replies[n]) then [Detail(reqs[n])] else [])
  }

  /** One request contributes its fragment exactly when its lookup succeeded. */
  lemma DetailsSingle(req: Request, reply: Reply)
    ensures Details([req], [reply]) == if Succeeded(reply) then [Detail(req)] else []
  {
    assert [req][..0] == [] && [reply][..0] == [];
  }

  /** The last request of a non-empty second part adds its fragment after all earlier ones. */
  lemma DetailsAppendLast(r1: seq<Request>, p1: seq<Reply>, r2: seq<Request>, p2: seq<Reply>)
    requires |r1| == |p1| && |r2| == |p2| && r2 != []
    ensures Details(r1 + r2, p1 + p2) ==
      Details(r1 + r2[..|r2| - 1], p1 + p2[..|p2| - 1]) + (if Succeeded(p2[|p2| - 1]) then [Detail(r2[|r2| - 1])] else [])
  {
    var n := |r2| - 1;
    var rs, ps := r1 + r2, p1 + p2;
    assert rs[..|rs| - 1] == r1 + r2[..n] && ps[..|ps| - 1] == p1 + p2[..n];
  }

  /** The fragments keep request order: they are built part by part along the requests. */
  lemma {:induction false} DetailsAppend(r1: seq<Request>, p1: seq<Reply>, r2: seq<Request>, p2: seq<Reply>)
    requires |r1| == |p1| && |r2| == |p2|
    ensures Details(r1 + r2, p1 + p2) == Details(r1, p1) + Details(r2, p2)
  {
    if r2 == [] {
      assert r1 + r2 == r1 && p1 + p2 == p1;
    } else {
      var n := |r2| - 1;
      var tail := if Succeeded(p2[n]) then [Detail(r2[n])] else [];
      DetailsAppendLast(r1, p1, r2, p2);
      DetailsAppend(r1, p1, r2[..n], p2[..n]);
      Regroup(Details(r1 + r2, p1 + p2), Details(r1, p1), Details(r2[..n], p2[..n]), tail, Details(r2, p2));
    }
  }

  /** Regrouping `(front + middle) + tail` as `front + (middle + tail)`, for lists named by calls. */
  lemma Regroup(all: seq<string>, front: seq<string>, middle: seq<string>, tail: seq<string>, back: seq<string>)
    requires all == (front + middle) + tail && back == middle + tail
    ensures all == front + back
  {
  }

  /** Every successful lookup has its fragment among the details. */
  lemma {:induction false} SuccessfulFragmentsListed(reqs: seq<Request>, replies: seq<Reply>)
    requires |reqs| == |replies|
    ensures forall k :: 0 <= k < |reqs| && Succeeded(replies[k]) ==> Detail(reqs[k]) in Details(reqs, replies)
  {
    if reqs != [] {
      var n := |reqs| - 1;
      SuccessfulFragmentsListed(reqs[..n], replies[..n]);
      var before := Details(reqs[..n], replies[..n]);
      var d := Details(reqs, replies);
      assert before <= d;
      forall k | 0 <= k < |reqs| && Succeeded(replies[k])
        ensures Detail(reqs[k]) in d
      {
        if k < n {
          assert reqs[k] == reqs[..n][k] && replies[k] == replies[..n][k];
          assert Detail(reqs[k]) in before;
        }
      }
    }
  }

  /** `parts.join(sep)` */
  function Join(parts: seq<string>, sep: string): (r: string)
    ensures parts == [] ==> r == ""
    ensures parts != [] ==> |parts[0]| <= |r| && r[..|parts[0]|] == parts[0]
  {
    if parts == [] then ""
    else if |parts| == 1 then parts[0]
    else parts[0] + sep + Join(parts[1..], sep)
  }

  function StatusText(details: seq<string>): string {
    if details == [] then OnTimeStatus else Join(details, ", ")
  }

  /**
   * The record `handleSaveAttendance` stores for a complete form, given the
   * answers to its lookups.
   */
  function RecordFor(f: Form, replies: seq<Reply>): (r: Record)
    requires Complete(f) && TimesGiven(f) && |replies| == |Requests(f)|
    ensures r.date == f.date.value && r.unit == f.unit && r.jabatan == f.jabatan
    ensures r.arrival == f.arrival && r.departure == f.departure
    ensures r.lateMinutes == 0 || r.lateMinutes > GraceMinutes
    ensures r.lateMinutes > 0 <==> LateOf(f) > GraceMinutes
    ensures r.lateMinutes > 0 ==> r.lateMinutes == LateOf(f)
    ensures r.earlyMinutes == EarlyOf(f)
    ensures r.deduction == Some(TotalContribution(replies)) && r.deduction.value >= 0
  {
    Record(f.date.value, f.unit, f.jabatan, f.arrival, f.departure,
           if LateOf(f) > GraceMinutes then LateOf(f) else 0, EarlyOf(f),
           Some(TotalContribution(replies)), StatusText(Details(Requests(f), replies)))
  }

  /** The status is "Tepat Waktu" exactly when no lookup succeeded, whatever the minutes were. */
  lemma OnTimeIffNoSuccess(f: Form, replies: seq<Reply>)
    requires Complete(f) && TimesGiven(f) && |replies| == |Requests(f)|
    ensures RecordFor(f, replies).status == OnTimeStatus <==> NoneSucceeded(replies)
    ensures NoneSucceeded(replies) ==> RecordFor(f, replies).deduction == Some(0)
  {
    var d := Details(Requests(f), replies);
    if d != [] {
      var s := Join(d, ", ");
      assert s[..|d[0]|][2] == d[0][2] == 'l';
      assert s[2] != OnTimeStatus[2];
    }
  }

  /** Two requests: the fragment of the first, if it succeeded, then that of the second. */
  lemma DetailsPair(a: Request, b: Request, pa: Reply, pb: Reply)
    ensures Details([a, b], [pa, pb]) ==
      (if Succeeded(pa) then [Detail(a)] else []) + (if Succeeded(pb) then [Detail(b)] else [])
  {
    assert [a, b] == [a] + [b] && [pa, pb] == [pa] + [pb];
    DetailsAppend([a], [pa], [b], [pb]);
    DetailsSingle(a, pa);
    DetailsSingle(b, pb);
  }

  /**
   * A day whose lateness and early leave were both charged: the status is the
   * lateness fragment, then ", ", then the early-leave fragment.
   */
  lemma BothChargedStatus(f: Form, replies: seq<Reply>)
    requires Complete(f) && TimesGiven(f) && |replies| == |Requests(f)| == 2
    requires Succeeded(replies[0]) && Succeeded(replies[1])
    ensures RecordFor(f, replies).status ==
      ("Telat " + IntToString(LateOf(f)) + "m") + ", " + ("Pulang Awal " + IntToString(EarlyOf(f)) + "m")
  {
    var a, b := Request(f.unit, f.jabatan, LateKind, LateOf(f)), Request(f.unit, f.jabatan, EarlyKind, EarlyOf(f));
    assert Requests(f) == [a, b];
    assert replies == [replies[0], replies[1]];
    DetailsPair(a, b, replies[0], replies[1]);
    var late, early := Detail(a), Detail(b);
    assert Join([late, early], ", ") == late + ", " + early by {
      assert [late, early][1..] == [early];
    }
  }

  /** When only the k-th lookup succeeded, its fragment is the only one. */
  lemma {:induction false} OnlySuccessDetails(reqs: seq<Request>, replies: seq<Reply>, k: nat)
    requires |reqs| == |replies| && k < |replies| && Succeeded(replies[k])
    requires forall j :: 0 <= j < |replies| && j != k ==> !Succeeded(replies[j])
    ensures Details(reqs, replies) == [Detail(reqs[k])]
  {
    var n := |reqs| - 1;
    if k == n {
      assert NoneSucceeded(replies[..n]) by {
        forall j | 0 <= j < n ensures !Succeeded(replies[..n][j]) {
          assert replies[..n][j] == replies[j];
        }
      }
    } else {
      assert replies[..n][k] == replies[k] && reqs[..n][k] == reqs[k];
      forall j | 0 <= j < n && j != k ensures !Succeeded(replies[..n][j]) {
        assert replies[..n][j] == replies[j];
      }
      OnlySuccessDetails(reqs[..n], replies[..n], k);
    }
  }

  /**
   * A day with exactly one successful lookup: the status is that lookup's
   * fragment alone, `Telat {n}m` or `Pulang Awal {m}m`.
   */
  lemma OneChargedStatus(f: Form, replies: seq<Reply>, k: nat)
    requires Complete(f) && TimesGiven(f) && |replies| == |Requests(f)|
    requires k < |replies| && Succeeded(replies[k])
    requires forall j :: 0 <= j < |replies| && j != k ==> !Succeeded(replies[j])
    ensures RecordFor(f, replies).status ==
      if Requests(f)[k].kind == LateKind then "Telat " + IntToString(LateOf(f)) + "m"
      else "Pulang Awal " + IntToString(EarlyOf(f)) + "m"
  {
    var rs := Requests(f);
    OnlySuccessDetails(rs, replies, k);
    var d := Detail(rs[k]);
    assert Join([d], ", ") == d;
    if rs[k].kind == LateKind {
      assert rs[k] == Request(f.unit, f.jabatan, LateKind, LateOf(f));
    } else {
      assert rs[k] == Request(f.unit, f.jabatan, EarlyKind, EarlyOf(f));
    }
  }

  // ----- the store -----

  /** The upsert key of `saveRecord`. */
  predicate SameSlot(a: Record, b: Record) {
    a.date == b.date && a.unit == b.unit && a.jabatan == b.jabatan
  }

  /** `findIndex`: the first record in the slot of `rec`, or -1. */
  function SlotIndex(rs: seq<Record>, rec: Record): (k: int)
    ensures -1 <= k < |rs|
    ensures k >= 0 ==> SameSlot(rs[k], rec) && forall j :: 0 <= j < k ==> !SameSlot(rs[j], rec)
    ensures k == -1 <==> forall j :: 0 <= j < |rs| ==> !SameSlot(rs[j], rec)
  {
    if rs == [] then -1
    else if SameSlot(rs[0], rec) then 0
    else
      var k := SlotIndex(rs[1..], rec);
      if k == -1 then -1 else k + 1
  }

  /** The stored list after `saveRecord(rec)`. */
  function Upserted(rs: seq<Record>, rec: Record): seq<Record> {
    var k := SlotIndex(rs, rec);
    if k >= 0 then rs[k := rec] else rs + [rec]
  }

  /** At most one record per (date, unit, jabatan). */
  predicate SlotsUnique(rs: seq<Record>) {
    forall i, j :: 0 <= i < j < |rs| ==> !SameSlot(rs[i], rs[j])
  }

  /**
   * Upsert: with a record in the slot, the first such record is replaced and
   * nothing else changes; without one, the record is appended.
   */
  lemma UpsertedShape(rs: seq<Record>, rec: Record)
    ensures var r := Upserted(rs, rec);
      && ((exists j :: 0 <= j < |rs| && SameSlot(rs[j], rec)) ==>
            && |r| == |rs|
            && (exists k :: && 0 <= k < |rs| && SameSlot(rs[k], rec) && r[k] == rec
                            && (forall j :: 0 <= j < k ==> !SameSlot(rs[j], rec))
                            && (forall j :: 0 <= j < |rs| && j != k ==> r[j] == rs[j])))
      && ((forall j :: 0 <= j < |rs| ==> !SameSlot(rs[j], rec)) ==> r == rs + [rec])
  {
    var k := SlotIndex(rs, rec);
    if k >= 0 {
      assert Upserted(rs, rec)[k] == rec;
    }
  }

  /** Saving keeps the slots unique, and afterwards the slot holds exactly the saved record. */
  lemma UpsertKeepsSlotsUnique(rs: seq<Record>, rec: Record)
    requires SlotsUnique(rs)
    ensures SlotsUnique(Upserted(rs, rec))
    ensures forall j :: 0 <= j < |Upserted(rs, rec)| && SameSlot(Upserted(rs, rec)[j], rec) ==> Upserted(rs, rec)[j] == rec
  {
    var k := SlotIndex(rs, rec);
    var r := Upserted(rs, rec);
    if k >= 0 {
      forall i, j | 0 <= i < j < |r|
        ensures !SameSlot(r[i], r[j])
      {
        if i == k {
          assert !SameSlot(rs[k], rs[j]);
        } else if j == k {
          assert !SameSlot(rs[i], rs[k]);
        }
      }
    }
  }

  class AttendanceBook {
    /** The array kept under `attendance_records`. */
    var records: seq<Record>

    constructor (stored: seq<Record>)
      ensures records == stored
    {
      records := stored;
    }

    /** `saveRecord` */
    method SaveRecord(record: Record)
      modifies this
      ensures records == Upserted(old(records), record)
    {
      var existingIndex := -1;
      var i := 0;
      while i < |records|
        invariant 0 <= i <= |records|
        invariant forall j :: 0 <= j < i ==> !SameSlot(records[j], record)
      {
        if SameSlot(records[i], record) {
          existingIndex := i;
          break;
        }
        i := i + 1;
      }
      assert existingIndex == SlotIndex(records, record);
      if existingIndex >= 0 {
        records := records[existingIndex := record];
      } else {
        records := records + [record];
      }
    }

    /**
     * `handleSaveAttendance`. `lookup` answers the deduction requests; the
     * requests it was asked are returned in `issued`, the stored record in `saved`.
     */
    method HandleSaveAttendance(form: Form, lookup: Request -> Reply) returns (issued: seq<Request>, saved: Option<Record>)
      requires Complete(form) ==> TimesGiven(form)
      modifies this
      ensures !Complete(form) ==> issued == [] && saved == None && records == old(records)
      ensures Complete(form) ==>
        && issued == Requests(form)
        && saved == Some(RecordFor(form, Ask(issued, lookup)))
        && records == Upserted(old(records), saved.value)
    {
      if form.unit == "" || form.jabatan == "" || form.date.None? {
        return [], None;
      }
      var lateMinutes := Lateness(form.arrival, WorkStart);
      var earlyMinutes := EarlyLeave(form.departure, WorkEnd);
      var totalDeduction, statusDetails;
      issued, totalDeduction, statusDetails := ChargeDeviations(form, lookup);
      var status := OnTimeStatus;
      if |statusDetails| > 0 {
        status := Join(statusDetails, ", ");
      }
      var record := Record(form.date.value, form.unit, form.jabatan, form.arrival, form.departure,
                           if lateMinutes > GraceMinutes then lateMinutes else 0, earlyMinutes,
                           Some(totalDeduction), status);
      SaveRecord(record);
      saved := Some(record);
    }
    /**
     * `loadEmployeeSummary`: nothing without a selected unit and jabatan;
     * otherwise the day counts, the summed deduction and the history of the
     * employee's records, newest first.
     */
    method LoadEmployeeSummary(unit: string, jabatan: string) returns (summary: Option<Summary>)
      ensures unit == "" || jabatan == "" ==> summary == None
      ensures unit != "" && jabatan != "" ==>
        var rs := EmployeeRecords(records, unit, jabatan);
        && summary == Some(Summary(LateDays(rs), EarlyDays(rs), TotalDeduction(rs), DisplayHistory(rs)))
        && summary.value.lateDays <= |rs| && summary.value.earlyDays <= |rs|
    {
      if unit == "" || jabatan == "" {
        return None;
      }
      var rs := EmployeeRecords(records, unit, jabatan);
      var totalLateDays, totalEarlyDays, totalDeduction := Tally(rs);
      summary := Some(Summary(totalLateDays, totalEarlyDays, totalDeduction, DisplayHistory(rs)));
    }
  }

  /** The `forEach` of `loadEmployeeSummary` that counts the days and sums the deductions. */
  method Tally(rs: seq<Record>) returns (totalLateDays: nat, totalEarlyDays: nat, totalDeduction: int)
    ensures totalLateDays == LateDays(rs) <= |rs|
    ensures totalEarlyDays == EarlyDays(rs) <= |rs|
    ensures totalDeduction == TotalDeduction(rs)
  {
    totalLateDays, totalEarlyDays, totalDeduction := 0, 0, 0;
    for i := 0 to |rs|
      invariant totalLateDays == LateDays(rs[..i])
      invariant totalEarlyDays == EarlyDays(rs[..i])
      invariant totalDeduction == TotalDeduction(rs[..i])
    {
      assert rs[..i + 1][..i] == rs[..i];
      if rs[i].lateMinutes > 0 {
        totalLateDays := totalLateDays + 1;
      }
      if rs[i].earlyMinutes > 0 {
        totalEarlyDays := totalEarlyDays + 1;
      }
      totalDeduction := totalDeduction + DeductionOrZero(rs[i]);
    }
    assert rs[..|rs|] == rs;
  }

  /**
   * The two guarded lookups of `handleSaveAttendance`: the total of the
   * deductions that came back and the status fragments of the successes.
   */
  method ChargeDeviations(form: Form, lookup: Request -> Reply) returns (issued: seq<Request>, totalDeduction: nat, statusDetails: seq<string>)
    requires TimesGiven(form)
    ensures issued == Requests(form)
    ensures totalDeduction == TotalContribution(Ask(issued, lookup))
    ensures statusDetails == Details(issued, Ask(issued, lookup))
  {
    var lateMinutes := Lateness(form.arrival, WorkStart);
    var earlyMinutes := EarlyLeave(form.departure, WorkEnd);
    ghost var late: seq<Request> := if lateMinutes > GraceMinutes then [Request(form.unit, form.jabatan, LateKind, lateMinutes)] else [];
    ghost var early: seq<Request> := if earlyMinutes > 0 then [Request(form.unit, form.jabatan, EarlyKind, earlyMinutes)] else [];
    assert Requests(form) == late + early;
    totalDeduction := 0;
    statusDetails := [];
    issued := [];
    if lateMinutes > GraceMinutes {
      issued, totalDeduction, statusDetails :=
        Charge(Request(form.unit, form.jabatan, LateKind, lateMinutes), lookup, issued, totalDeduction, statusDetails);
    }
    if earlyMinutes > 0 {
      issued, totalDeduction, statusDetails :=
        Charge(Request(form.unit, form.jabatan, EarlyKind, earlyMinutes), lookup, issued, totalDeduction, statusDetails);
    }
  }

  /** One `try { fetch … }` block: ask, and on success add |deduction| and the fragment. */
  method Charge(req: Request, lookup: Request -> Reply, issued: seq<Request>, total: nat, details: seq<string>)
    returns (issued': seq<Request>, total': nat, details': seq<string>)
    requires total == TotalContribution(Ask(issued, lookup))
    requires details == Details(issued, Ask(issued, lookup))
    ensures issued' == issued + [req]
    ensures total' == TotalContribution(Ask(issued', lookup))
    ensures details' == Details(issued', Ask(issued', lookup))
  {
    issued' := issued + [req];
    total', details' := total, details;
    var reply := lookup(req);
    if reply.Replied? && reply.success {
      total' := total + Abs(reply.deduction);
      details' := details + [Detail(req)];
    }
    assert issued'[..|issued|] == issued;
    assert Ask(issued', lookup)[..|issued|] == Ask(issued, lookup);
  }

  /** The first scenario: 20 minutes late, a 15000 deduction, status "Telat 20m". */
  lemma TwentyMinutesLate(lookup: Request -> Reply)
    requires lookup(Request("Finance", "Clerk", LateKind, 20)) == Replied(true, -15000)
    ensures var f := Form("Finance", "Clerk", Some(Date(2024, 1, 15)), "09:20", "18:00");
      && Requests(f) == [Request("Finance", "Clerk", LateKind, 20)]
      && RecordFor(f, Ask(Requests(f), lookup)).lateMinutes == 20
      && RecordFor(f, Ask(Requests(f), lookup)).deduction == Some(15000)
      && RecordFor(f, Ask(Requests(f), lookup)).status == "Telat 20m"
  {
    var f := Form("Finance", "Clerk", Some(Date(2024, 1, 15)), "09:20", "18:00");
    assert MinuteOfDay("09:20") == 560 && MinuteOfDay(WorkStart) == 540;
    assert MinuteOfDay("18:00") == MinuteOfDay(WorkEnd);
    assert NatToString(2) == "2";
    assert NatToString(20) == "20";
    assert IntToString(20) == "20";
    var req := Request("Finance", "Clerk", LateKind, 20);
    assert Detail(req) == "Telat 20m";
    var replies := Ask(Requests(f), lookup);
    assert replies == [Replied(true, -15000)];
    assert Details([], []) == [];
    assert [req][..0] == [] && replies[..0] == [];
    assert Details(Requests(f), replies) == ["Telat 20m"];
  }

  /** The second scenario: within the grace band, leaving on time: no lookup, no deduction. */
  lemma WithinGraceOnTime(lookup: Request -> Reply)
    ensures var f := Form("Finance", "Clerk", Some(Date(2024, 1, 15)), "09:03", "18:00");
      && Requests(f) == []
      && RecordFor(f, []) == Record(Date(2024, 1, 15), "Finance", "Clerk", "09:03", "18:00", 0, 0, Some(0), OnTimeStatus)
  {
    assert MinuteOfDay("09:03") == 543 && MinuteOfDay(WorkStart) == 540;
    assert MinuteOfDay("18:00") == MinuteOfDay(WorkEnd);
  }

  // ----- reading one employee's records back -----

  predicate IsFor(r: Record, unit: string, jabatan: string) {
    r.unit == unit && r.jabatan == jabatan
  }

  /** `records.filter(r => r.unit === unit && r.jabatan === jabatan)` */
  function RecordsFor(rs: seq<Record>, unit: string, jabatan: string): (r: seq<Record>)
    ensures |r| <= |rs|
    ensures forall x :: x in r <==> x in rs && IsFor(x, unit, jabatan)
  {
    if rs == [] then []
    else
      var n := |rs| - 1;
      RecordsFor(rs[..n], unit, jabatan) + (if IsFor(rs[n], unit, jabatan) then [rs[n]] else [])
  }

  /** Dates never increase along the list. */
  predicate NewestFirst(rs: seq<Record>) {
    forall i, j :: 0 <= i < j < |rs| ==> !Earlier(rs[i].date, rs[j].date)
  }

  /** A record not older than any record of a newest-first list can go in front of it. */
  lemma PrependKeepsNewestFirst(h: Record, rest: seq<Record>)
    requires NewestFirst(rest)
    requires forall k :: 0 <= k < |rest| ==> !Earlier(h.date, rest[k].date)
    ensures NewestFirst([h] + rest)
  {
    var r := [h] + rest;
    forall i, j | 0 <= i < j < |r|
      ensures !Earlier(r[i].date, r[j].date)
    {
      assert r[j] == rest[j - 1];
      if i > 0 {
        assert r[i] == rest[i - 1];
      }
    }
  }

  /** A record newer than the newest of a newest-first list is not older than any of it. */
  lemma NewerThanHead(x: Record, s: seq<Record>)
    requires NewestFirst(s) && s != [] && Earlier(s[0].date, x.date)
    ensures forall k :: 0 <= k < |s| ==> !Earlier(x.date, s[k].date)
  {
    forall k | 0 < k < |s|
      ensures !Earlier(x.date, s[k].date)
    {
      assert !Earlier(s[0].date, s[k].date);
    }
  }

  /** After the insertion into the tail, the head is still not older than anything after it. */
  lemma HeadStaysNewest(x: Record, s: seq<Record>, rest: seq<Record>)
    requires NewestFirst(s) && s != [] && !Earlier(s[0].date, x.date)
    requires multiset(rest) == multiset(s[1..]) + multiset{x}
    ensures forall k :: 0 <= k < |rest| ==> !Earlier(s[0].date, rest[k].date)
  {
    forall k | 0 <= k < |rest|
      ensures !Earlier(s[0].date, rest[k].date)
    {
      assert rest[k] in multiset(rest);
      if rest[k] != x {
        assert rest[k] in s[1..];
        var j :| 0 <= j < |s[1..]| && s[1..][j] == rest[k];
        assert s[j + 1] == rest[k];
      }
    }
  }

  /** Puts `x` after every record not older than it (so equal dates keep their order). */
  function InsertByDate(x: Record, s: seq<Record>): (r: seq<Record>)
    requires NewestFirst(s)
    ensures NewestFirst(r)
    ensures multiset(r) == multiset(s) + multiset{x}
  {
    if s == [] then [x]
    else if Earlier(s[0].date, x.date) then
      NewerThanHead(x, s);
      PrependKeepsNewestFirst(x, s);
      [x] + s
    else
      var rest := InsertByDate(x, s[1..]);
      HeadStaysNewest(x, s, rest);
      PrependKeepsNewestFirst(s[0], rest);
      assert s == [s[0]] + s[1..];
      [s[0]] + rest
  }

  /** `.sort((a, b) => new Date(b.date) - new Date(a.date))` */
  function SortNewestFirst(rs: seq<Record>): (r: seq<Record>)
    ensures NewestFirst(r)
    ensures multiset(r) == multiset(rs)
  {
    if rs == [] then []
    else
      var n := |rs| - 1;
      assert rs == rs[..n] + [rs[n]];
      InsertByDate(rs[n], SortNewestFirst(rs[..n]))
  }

  /** `getEmployeeRecords`: the employee's records, newest first. */
  function EmployeeRecords(rs: seq<Record>, unit: string, jabatan: string): (r: seq<Record>)
    ensures NewestFirst(r)
    ensures multiset(r) == multiset(RecordsFor(rs, unit, jabatan))
    ensures forall x :: x in r <==> x in rs && IsFor(x, unit, jabatan)
  {
    var r := SortNewestFirst(RecordsFor(rs, unit, jabatan));
    assert forall x :: x in r <==> x in multiset(RecordsFor(rs, unit, jabatan));
    r
  }

  /** Days with recorded lateness. */
  function LateDays(rs: seq<Record>): (n: nat)
    ensures n <= |rs|
  {
    if rs == [] then 0
    else LateDays(rs[..|rs| - 1]) + (if rs[|rs| - 1].lateMinutes > 0 then 1 else 0)
  }

  /** Days with recorded early leave. */
  function EarlyDays(rs: seq<Record>): (n: nat)
    ensures n <= |rs|
  {
    if rs == [] then 0
    else EarlyDays(rs[..|rs| - 1]) + (if rs[|rs| - 1].earlyMinutes > 0 then 1 else 0)
  }

  /** `r.deduction || 0` */
  function DeductionOrZero(r: Record): int {
    if r.deduction.Some? then r.deduction.value else 0
  }

  /** The summed deductions, a missing one counting as 0. */
  function TotalDeduction(rs: seq<Record>): int {
    if rs == [] then 0
    else TotalDeduction(rs[..|rs| - 1]) + DeductionOrZero(rs[|rs| - 1])
  }

  /** Records written by a save carry a deduction that is never negative. */
  predicate Saved(r: Record) {
    r.deduction.Some? && r.deduction.value >= 0
  }

  /** Over saved records the total is at least every single deduction in it. */
  lemma {:induction false} TotalDeductionBounds(rs: seq<Record>)
    requires forall k :: 0 <= k < |rs| ==> Saved(rs[k])
    ensures TotalDeduction(rs) >= 0
    ensures forall k :: 0 <= k < |rs| ==> DeductionOrZero(rs[k]) <= TotalDeduction(rs)
  {
    if rs != [] {
      TotalDeductionBounds(rs[..|rs| - 1]);
    }
  }

  predicate HasIssue(r: Record) {
    r.lateMinutes > 0 || r.earlyMinutes > 0
  }

  /** `records.filter(r => r.lateMinutes > 0 || r.earlyMinutes > 0)` */
  function IssueRecords(rs: seq<Record>): (r: seq<Record>)
    ensures |r| <= |rs|
    ensures forall x :: x in r <==> x in rs && HasIssue(x)
  {
    if rs == [] then []
    else
      var n := |rs| - 1;
      IssueRecords(rs[..n]) + (if HasIssue(rs[n]) then [rs[n]] else [])
  }

  /** The filter keeps order: the issues of a list are the issues of its parts, in turn. */
  lemma {:induction false} IssueRecordsAppend(a: seq<Record>, b: seq<Record>)
    ensures IssueRecords(a + b) == IssueRecords(a) + IssueRecords(b)
  {
    if b != [] {
      var n := |b| - 1;
      assert (a + b)[..|a + b| - 1] == a + b[..n];
      IssueRecordsAppend(a, b[..n]);
    } else {
      assert a + b == a;
    }
  }

  /** What `displayHistory` shows. */
  datatype History = NoHistory | NoIssues | Issues(items: seq<Record>)

  function DisplayHistory(rs: seq<Record>): (h: History)
    ensures h == NoHistory <==> rs == []
    ensures h == NoIssues <==> rs != [] && forall k :: 0 <= k < |rs| ==> !HasIssue(rs[k])
    ensures h.Issues? ==> h.items == IssueRecords(rs) && h.items != []
  {
    if rs == [] then NoHistory
    else
      var issues := IssueRecords(rs);
      if issues == [] then
        assert forall k :: 0 <= k < |rs| ==> !HasIssue(rs[k]) by {
          forall k | 0 <= k < |rs| ensures !HasIssue(rs[k]) {
            assert rs[k] in rs;
          }
        }
        NoIssues
      else
        assert issues[0] in rs;
        Issues(issues)
  }

  datatype Summary = Summary(lateDays: nat, earlyDays: nat, totalDeduction: int, history: History)
}

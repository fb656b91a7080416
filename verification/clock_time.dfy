/**
 * app.js: lateness and early leave from "HH:MM" clock times
 * (`calculateLateness`, `calculateEarlyLeave`) and the live status rule of
 * `updateTimeStatus`, with its 5-minute grace band for lateness only.
 */
module ClockTime {
  import opened Wrappers
  import opened Decimal

  const WorkStart: string := "09:00"
  const WorkEnd: string := "18:00"
  /** Lateness up to this many minutes is not flagged. */
  const GraceMinutes: nat := 5

  /** An "HH:MM" (or "HH:MM:SS") value of a time input; seconds are ignored. */
  predicate IsClock(s: string) {
    && (|s| == 5 || (|s| == 8 && s[5] == ':' && IsDigit(s[6]) && IsDigit(s[7])))
    && IsDigit(s[0]) && IsDigit(s[1]) && s[2] == ':' && IsDigit(s[3]) && IsDigit(s[4])
  }

  /** `const [h, m] = s.split(':').map(Number); h * 60 + m` */
  function MinuteOfDay(s: string): nat
    requires IsClock(s)
  {
    (10 * DigitValue(s[0]) + DigitValue(s[1])) * 60 + 10 * DigitValue(s[3]) + DigitValue(s[4])
  }

  /** `calculateLateness`: minutes past the expected time, never negative. */
  function Lateness(actual: string, expected: string): (late: nat)
    requires IsClock(actual) && IsClock(expected)
    ensures MinuteOfDay(actual) <= MinuteOfDay(expected) ==> late == 0
    ensures MinuteOfDay(actual) > MinuteOfDay(expected) ==> MinuteOfDay(expected) + late == MinuteOfDay(actual)
  {
    var d := MinuteOfDay(actual) - MinuteOfDay(expected);
    if 0 < d then d else 0
  }

  /** `calculateEarlyLeave`: minutes short of the expected time, never negative. */
  function EarlyLeave(actual: string, expected: string): (early: nat)
    requires IsClock(actual) && IsClock(expected)
    ensures MinuteOfDay(actual) >= MinuteOfDay(expected) ==> early == 0
    ensures MinuteOfDay(actual) < MinuteOfDay(expected) ==> MinuteOfDay(actual) + early == MinuteOfDay(expected)
  {
    var d := MinuteOfDay(expected) - MinuteOfDay(actual);
    if 0 < d then d else 0
  }

  datatype StatusClass = Ok | Late | Early
  /** One line of the status box: late by, left early by, or on time. */
  datatype StatusLine = LateLine(minutes: nat) | EarlyLine(minutes: nat) | OnTimeLine
  datatype Status = Status(cls: StatusClass, lines: seq<StatusLine>)

  /** The statement sequence of `updateTimeStatus` once both times are known. */
  function StatusRule(late: nat, early: nat): (s: Status)
    ensures s.cls == Ok <==> late <= GraceMinutes && early == 0
    ensures s.cls == Late <==> late > GraceMinutes
    ensures s.cls == Early <==> late <= GraceMinutes && early > 0
    ensures s.lines == [OnTimeLine] <==> s.cls == Ok
    ensures LateLine(late) in s.lines <==> late > GraceMinutes
    ensures EarlyLine(early) in s.lines <==> early > 0
    ensures late > GraceMinutes && early > 0 ==> s.lines == [LateLine(late), EarlyLine(early)]
    ensures late > GraceMinutes && early == 0 ==> s.lines == [LateLine(late)]
    ensures late <= GraceMinutes && early > 0 ==> s.lines == [EarlyLine(early)]
  {
    var s1 := if late > GraceMinutes then Status(Late, [LateLine(late)]) else Status(Ok, []);
    var s2 := if early > 0 then Status(if s1.cls == Late then Late else Early, s1.lines + [EarlyLine(early)]) else s1;
    if late <= GraceMinutes && early <= 0 then Status(s2.cls, [OnTimeLine])
    else assert s2.lines[0] != OnTimeLine; s2
  }

  /** `updateTimeStatus`: hidden while either time is empty. */
  function UpdateTimeStatus(arrival: string, departure: string): (s: Option<Status>)
    requires arrival == "" || IsClock(arrival)
    requires departure == "" || IsClock(departure)
    ensures s.None? <==> arrival == "" || departure == ""
    ensures s.Some? ==> (s.value.cls == Ok <==>
      Lateness(arrival, WorkStart) <= GraceMinutes && EarlyLeave(departure, WorkEnd) == 0)
  {
    if arrival == "" || departure == "" then None
    else Some(StatusRule(Lateness(arrival, WorkStart), EarlyLeave(departure, WorkEnd)))
  }
}

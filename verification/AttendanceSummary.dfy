/** The period summary: one staff member's expected, worked, excused and absent days. */
module AttendanceSummary {
  import opened Base
  import opened WorkCalendar

  datatype Status = Present | Late | Absent | OnLeave | ApprovedPermission | PublicHoliday | ExtraWorkDayPending

  datatype ExtraWork = ExtraPending | ExtraApproved | ExtraRejected

  /** What the summary reads of a day's attendance record. */
  datatype Record = Record(status: Status, checkedIn: bool, earlyDepartureMinutes: Option<int>,
                           extraWork: Option<ExtraWork>)

  /** An approved leave request of a day type, both ends included. */
  datatype Leave = Leave(start: Day, end: Day)

  /** One staff member's tables; `closures` are the closed days of the company or of their branch. */
  datatype Attendance = Attendance(calendar: Calendar, records: map<Day, Record>, leaves: seq<Leave>,
                                   closures: set<Day>)

  datatype Summary = Summary(
    expectedWorkingDays: nat, daysWorked: nat, halfDaysWorked: nat, approvedExtraWorkDays: nat,
    pendingExtraWorkDays: nat, approvedLeaveDays: nat, publicHolidaysWorked: nat, lateArrivals: nat,
    earlyDepartures: nat, absentDays: nat)

  // ---- What each counter counts, day by day ----

  /** How many days from..till have the property. */
  function CountDays(p: Day -> bool, from: Day, till: Day): nat
    decreases till - from + 1
  {
    if till < from then 0 else CountDays(p, from, till - 1) + if p(till) then 1 else 0
  }

  predicate LeaveDay(a: Attendance, d: Day) {
    exists i :: 0 <= i < |a.leaves| && a.leaves[i].start <= d <= a.leaves[i].end
  }

  predicate CheckedIn(a: Attendance, d: Day) { d in a.records && a.records[d].checkedIn }

  predicate Expected(a: Attendance, today: Day, d: Day) { d <= today && Works(a.calendar, d) }

  predicate IsHalf(a: Attendance, d: Day) { ResolveEffectiveDay(a.calendar, d).dayType == HalfDay }

  predicate Excused(a: Attendance, d: Day) { !CheckedIn(a, d) && (LeaveDay(a, d) || d in a.closures) }

  predicate HasStatus(a: Attendance, status: Status, d: Day) { d in a.records && a.records[d].status == status }

  predicate HasExtra(a: Attendance, extra: ExtraWork, d: Day) {
    HasStatus(a, ExtraWorkDayPending, d) && a.records[d].extraWork == Some(extra)
  }

  predicate LeftEarly(a: Attendance, d: Day) { d in a.records && a.records[d].earlyDepartureMinutes.Some? }

  function ExpectedDays(a: Attendance, today: Day, from: Day, till: Day): nat {
    CountDays(d => Expected(a, today, d), from, till)
  }

  function WorkedDays(a: Attendance, today: Day, from: Day, till: Day): nat {
    CountDays(d => Expected(a, today, d) && CheckedIn(a, d) && !IsHalf(a, d), from, till)
  }

  function HalfDays(a: Attendance, today: Day, from: Day, till: Day): nat {
    CountDays(d => Expected(a, today, d) && CheckedIn(a, d) && IsHalf(a, d), from, till)
  }

  function ExcusedDays(a: Attendance, today: Day, from: Day, till: Day): nat {
    CountDays(d => Expected(a, today, d) && Excused(a, d), from, till)
  }

  function AbsentDays(a: Attendance, today: Day, from: Day, till: Day): nat {
    CountDays(d => Expected(a, today, d) && !CheckedIn(a, d) && !Excused(a, d), from, till)
  }

  function StatusDays(a: Attendance, status: Status, from: Day, till: Day): nat {
    CountDays(d => HasStatus(a, status, d), from, till)
  }

  function ExtraDays(a: Attendance, extra: ExtraWork, from: Day, till: Day): nat {
    CountDays(d => HasExtra(a, extra, d), from, till)
  }

  function EarlyDays(a: Attendance, from: Day, till: Day): nat {
    CountDays(d => LeftEarly(a, d), from, till)
  }

  // ---- Leave dates ----

  function DaysBetween(start: Day, end: Day): (s: set<Day>)
    ensures forall d :: d in s <==> start <= d <= end
    decreases end - start + 1
  {
    if end < start then {} else DaysBetween(start, end - 1) + {end}
  }

  predicate Overlaps(l: Leave, from: Day, till: Day) { l.start <= till && from <= l.end }

  /** Every day of every leave that overlaps the period, whether or not the day itself lies in it. */
  function LeaveDates(leaves: seq<Leave>, from: Day, till: Day): set<Day> {
    if leaves == [] then {}
    else
      var l := leaves[|leaves| - 1];
      LeaveDates(leaves[..|leaves| - 1], from, till)
      + if Overlaps(l, from, till) then DaysBetween(l.start, l.end) else {}
  }

  lemma {:induction false} LeaveDatesMeaning(leaves: seq<Leave>, from: Day, till: Day, d: Day)
    ensures d in LeaveDates(leaves, from, till)
       <==> exists i :: 0 <= i < |leaves| && Overlaps(leaves[i], from, till) && leaves[i].start <= d <= leaves[i].end
    decreases |leaves|
  {
    if leaves != [] {
      var n := |leaves| - 1;
      LeaveDatesMeaning(leaves[..n], from, till, d);
      if i :| 0 <= i < n && Overlaps(leaves[i], from, till) && leaves[i].start <= d <= leaves[i].end {
        assert leaves[..n][i] == leaves[i];
      }
    }
  }

  /** Inside the period, the collected dates are the days on leave. */
  lemma LeaveDatesInside(a: Attendance, from: Day, till: Day, d: Day)
    requires from <= d <= till
    ensures d in LeaveDates(a.leaves, from, till) <==> LeaveDay(a, d)
  {
    LeaveDatesMeaning(a.leaves, from, till, d);
    if LeaveDay(a, d) {
      var i :| 0 <= i < |a.leaves| && a.leaves[i].start <= d <= a.leaves[i].end;
      assert Overlaps(a.leaves[i], from, till);
    }
  }

  // ---- The service ----

  method CollectLeaveDates(leaves: seq<Leave>, from: Day, till: Day) returns (dates: set<Day>)
    ensures dates == LeaveDates(leaves, from, till)
  {
    dates := {};
    for i := 0 to |leaves|
      invariant dates == LeaveDates(leaves[..i], from, till)
    {
      assert leaves[..i + 1][..i] == leaves[..i];
      if Overlaps(leaves[i], from, till) {
        var before := dates;
        var d := leaves[i].start;
        while d <= leaves[i].end
          invariant leaves[i].start <= d && (d <= leaves[i].end + 1 || d == leaves[i].start)
          invariant dates == before + DaysBetween(leaves[i].start, d - 1)
        {
          dates := dates + {d};
          d := d + 1;
        }
      }
    }
    assert leaves[..|leaves|] == leaves;
  }

  /** The day loop: it stops at the first day after today. */
  method TallyDays(a: Attendance, today: Day, from: Day, till: Day, leaveDates: set<Day>)
    returns (expected: nat, worked: nat, half: nat, absent: nat)
    requires leaveDates == LeaveDates(a.leaves, from, till)
    ensures expected == ExpectedDays(a, today, from, till) && worked == WorkedDays(a, today, from, till)
    ensures half == HalfDays(a, today, from, till) && absent == AbsentDays(a, today, from, till)
  {
    expected, worked, half, absent := 0, 0, 0, 0;
    var d := from;
    while d <= till
      invariant from <= d && (d <= till + 1 || d == from) && d <= MaxDay(from, today + 1)
      invariant Tallied(a, today, from, d - 1, expected, worked, half, absent)
    {
      if d > today {
        break;
      }
      NextDay(a, today, from, d, expected, worked, half, absent);
      LeaveDatesInside(a, from, till, d);
      var effective := ResolveEffectiveDay(a.calendar, d);
      if effective.dayType == Off {
        d := d + 1;
        continue;
      }
      expected := expected + 1;
      if d in a.records && a.records[d].checkedIn {
        if effective.dayType == HalfDay {
          half := half + 1;
        } else {
          worked := worked + 1;
        }
      } else if d in leaveDates || d in a.closures {
        // accounted for
      } else {
        absent := absent + 1;
      }
      d := d + 1;
    }
    FutureDaysDoNotCount(a, today, from, d - 1, till);
  }

  ghost predicate Tallied(a: Attendance, today: Day, from: Day, till: Day, expected: nat, worked: nat, half: nat,
                          absent: nat)
  {
    && expected == ExpectedDays(a, today, from, till) && worked == WorkedDays(a, today, from, till)
    && half == HalfDays(a, today, from, till) && absent == AbsentDays(a, today, from, till)
  }

  lemma NextDay(a: Attendance, today: Day, from: Day, d: Day, expected: nat, worked: nat, half: nat, absent: nat)
    requires from <= d <= today && Tallied(a, today, from, d - 1, expected, worked, half, absent)
    ensures if !Works(a.calendar, d) then Tallied(a, today, from, d, expected, worked, half, absent)
            else if CheckedIn(a, d) then
              if IsHalf(a, d) then Tallied(a, today, from, d, expected + 1, worked, half + 1, absent)
              else Tallied(a, today, from, d, expected + 1, worked + 1, half, absent)
            else if LeaveDay(a, d) || d in a.closures then
              Tallied(a, today, from, d, expected + 1, worked, half, absent)
            else Tallied(a, today, from, d, expected + 1, worked, half, absent + 1)
  {
  }

  method GetMonthlySummary(a: Attendance, today: Day, from: Day, till: Day) returns (s: Summary)
    ensures s.expectedWorkingDays == ExpectedDays(a, today, from, till)
    ensures s.daysWorked == WorkedDays(a, today, from, till)
    ensures s.halfDaysWorked == HalfDays(a, today, from, till)
    ensures s.absentDays == AbsentDays(a, today, from, till)
    ensures s.approvedExtraWorkDays == ExtraDays(a, ExtraApproved, from, till)
    ensures s.pendingExtraWorkDays == ExtraDays(a, ExtraPending, from, till)
    ensures s.lateArrivals == StatusDays(a, Late, from, till)
    ensures s.earlyDepartures == EarlyDays(a, from, till)
    ensures s.publicHolidaysWorked == StatusDays(a, PublicHoliday, from, till)
    ensures s.approvedLeaveDays == |LeaveDates(a.leaves, from, till)|
  {
    var leaveDates := CollectLeaveDates(a.leaves, from, till);
    var expected, worked, half, absent := TallyDays(a, today, from, till, leaveDates);
    s := Summary(expected, worked, half, ExtraDays(a, ExtraApproved, from, till),
                 ExtraDays(a, ExtraPending, from, till),
                 |leaveDates|, StatusDays(a, PublicHoliday, from, till), StatusDays(a, Late, from, till),
                 EarlyDays(a, from, till), absent);
  }

  function MaxDay(x: Day, y: Day): Day { if x <= y then y else x }

  /** Nothing after today is expected, so the loop's early exit loses nothing. */
  lemma {:induction false} FutureDaysDoNotCount(a: Attendance, today: Day, from: Day, mid: Day, till: Day)
    requires from - 1 <= mid && (till <= mid || today <= mid)
    requires mid <= till || mid == from - 1
    ensures ExpectedDays(a, today, from, till) == ExpectedDays(a, today, from, mid)
    ensures WorkedDays(a, today, from, till) == WorkedDays(a, today, from, mid)
    ensures HalfDays(a, today, from, till) == HalfDays(a, today, from, mid)
    ensures AbsentDays(a, today, from, till) == AbsentDays(a, today, from, mid)
    decreases till - mid
  {
    if mid < till {
      FutureDaysDoNotCount(a, today, from, mid, till - 1);
    }
  }

  // ---- Adjacent periods add up ----

  lemma {:induction false} CountSplit(p: Day -> bool, from: Day, mid: Day, till: Day)
    requires from - 1 <= mid <= till
    ensures CountDays(p, from, till) == CountDays(p, from, mid) + CountDays(p, mid + 1, till)
    decreases till - mid
  {
    if mid < till {
      CountSplit(p, from, mid, till - 1);
    }
  }

  lemma {:induction false} CountAtMost(p: Day -> bool, q: Day -> bool, from: Day, till: Day)
    requires forall d | from <= d <= till && p(d) :: q(d)
    ensures CountDays(p, from, till) <= CountDays(q, from, till)
    decreases till - from + 1
  {
    if from <= till {
      CountAtMost(p, q, from, till - 1);
    }
  }

  /** Every day counter but the leave total is additive over adjacent periods. */
  lemma SummaryIsAdditive(a: Attendance, today: Day, from: Day, mid: Day, till: Day)
    requires from - 1 <= mid <= till
    ensures ExpectedDays(a, today, from, till)
         == ExpectedDays(a, today, from, mid) + ExpectedDays(a, today, mid + 1, till)
    ensures WorkedDays(a, today, from, till) == WorkedDays(a, today, from, mid) + WorkedDays(a, today, mid + 1, till)
    ensures HalfDays(a, today, from, till) == HalfDays(a, today, from, mid) + HalfDays(a, today, mid + 1, till)
    ensures AbsentDays(a, today, from, till) == AbsentDays(a, today, from, mid) + AbsentDays(a, today, mid + 1, till)
    ensures forall extra :: ExtraDays(a, extra, from, till)
                            == ExtraDays(a, extra, from, mid) + ExtraDays(a, extra, mid + 1, till)
    ensures forall st :: StatusDays(a, st, from, till)
                         == StatusDays(a, st, from, mid) + StatusDays(a, st, mid + 1, till)
    ensures EarlyDays(a, from, till) == EarlyDays(a, from, mid) + EarlyDays(a, mid + 1, till)
  {
    CountSplit(d => Expected(a, today, d), from, mid, till);
    CountSplit(d => Expected(a, today, d) && CheckedIn(a, d) && !IsHalf(a, d), from, mid, till);
    CountSplit(d => Expected(a, today, d) && CheckedIn(a, d) && IsHalf(a, d), from, mid, till);
    CountSplit(d => Expected(a, today, d) && !CheckedIn(a, d) && !Excused(a, d), from, mid, till);
    forall extra
      ensures ExtraDays(a, extra, from, till)
           == ExtraDays(a, extra, from, mid) + ExtraDays(a, extra, mid + 1, till)
    {
      CountSplit(d => HasExtra(a, extra, d), from, mid, till);
    }
    forall st ensures StatusDays(a, st, from, till) == StatusDays(a, st, from, mid) + StatusDays(a, st, mid + 1, till) {
      CountSplit(d => HasStatus(a, st, d), from, mid, till);
    }
    CountSplit(d => LeftEarly(a, d), from, mid, till);
  }

  /** An expected day is worked, half worked, excused or missed: exactly one of them. */
  lemma {:induction false} ExpectedDaysAreAccountedFor(a: Attendance, today: Day, from: Day, till: Day)
    ensures ExpectedDays(a, today, from, till)
         == WorkedDays(a, today, from, till) + HalfDays(a, today, from, till) + ExcusedDays(a, today, from, till)
          + AbsentDays(a, today, from, till)
    decreases till - from + 1
  {
    if from <= till {
      ExpectedDaysAreAccountedFor(a, today, from, till - 1);
    }
  }

  /** A part of a period expects no more than the whole. */
  lemma PartOfPeriod(a: Attendance, today: Day, from: Day, start: Day, till: Day)
    requires from <= start <= till + 1
    ensures ExpectedDays(a, today, start, till) <= ExpectedDays(a, today, from, till)
  {
    SummaryIsAdditive(a, today, from, start - 1, till);
  }

  // ---- Leave days are not clipped to the period ----

  predicate SticksOut(l: Leave, from: Day, till: Day) {
    Overlaps(l, from, till) && l.start <= l.end && (l.start < from || till < l.end)
  }

  lemma {:induction false} CountIsSize(p: Day -> bool, from: Day, till: Day, s: set<Day>)
    requires forall d :: d in s <==> from <= d <= till && p(d)
    ensures CountDays(p, from, till) == |s|
    decreases till - from + 1
  {
    if from <= till {
      CountIsSize(p, from, till - 1, s - {till});
      if p(till) {
        assert till in s;
        assert s == (s - {till}) + {till};
      } else {
        assert till !in s;
        assert s == s - {till};
      }
    } else {
      assert s == {};
    }
  }

  /** A collected date outside the period comes from a leave that reaches across one of its ends. */
  lemma OutsideMeansSticksOut(leaves: seq<Leave>, from: Day, till: Day)
    ensures (exists d :: d in LeaveDates(leaves, from, till) && !(from <= d <= till))
       <==> exists i :: 0 <= i < |leaves| && SticksOut(leaves[i], from, till)
  {
    if i :| 0 <= i < |leaves| && SticksOut(leaves[i], from, till) {
      var d := if leaves[i].start < from then leaves[i].start else leaves[i].end;
      LeaveDatesMeaning(leaves, from, till, d);
    }
    if d :| d in LeaveDates(leaves, from, till) && !(from <= d <= till) {
      LeaveDatesMeaning(leaves, from, till, d);
      var i :| 0 <= i < |leaves| && Overlaps(leaves[i], from, till) && leaves[i].start <= d <= leaves[i].end;
      assert SticksOut(leaves[i], from, till);
    }
  }

  lemma SmallerOnlyIfDifferent(part: set<Day>, whole: set<Day>)
    requires part <= whole
    ensures |part| == |whole| <==> forall d :: d in whole ==> d in part
  {
    assert whole == part + (whole - part);
    if forall d :: d in whole ==> d in part {
      assert part == whole;
    }
  }

  /**
   * The reported leave days are the period's days on leave exactly when no approved leave
   * reaches across either end of the period.
   */
  lemma LeaveDaysAreRightIff(a: Attendance, from: Day, till: Day)
    ensures |LeaveDates(a.leaves, from, till)| == CountDays(d => LeaveDay(a, d), from, till)
       <==> !(exists i :: 0 <= i < |a.leaves| && SticksOut(a.leaves[i], from, till))
  {
    var dates := LeaveDates(a.leaves, from, till);
    var inside := set d | d in dates && from <= d <= till;
    forall d ensures d in inside <==> from <= d <= till && LeaveDay(a, d) {
      if from <= d <= till {
        LeaveDatesInside(a, from, till, d);
      }
    }
    CountIsSize(d => LeaveDay(a, d), from, till, inside);
    SmallerOnlyIfDifferent(inside, dates);
    OutsideMeansSticksOut(a.leaves, from, till);
  }

  /** Two days of leave across the end of a month. */
  const ACROSS_MONTH_END := Attendance(Calendar(map[], []), map[], [Leave(30, 31)], {})

  /** January 1970 (days 0 to 30) and February each report both days: four for the leave's two. */
  lemma LeaveCountedTwice()
    ensures |LeaveDates(ACROSS_MONTH_END.leaves, 0, 30)| == 2 && |LeaveDates(ACROSS_MONTH_END.leaves, 31, 58)| == 2
    ensures |LeaveDates(ACROSS_MONTH_END.leaves, 0, 58)| == 2
  {
    var leaves := ACROSS_MONTH_END.leaves;
    assert leaves[..0] == [];
    assert DaysBetween(30, 31) == {30, 31};
    assert {} + DaysBetween(30, 31) == {30, 31};
  }

  // ---- A past fortnight expects the same number of days wherever it starts ----

  lemma {:induction false} PastDaysAreExpected(a: Attendance, today: Day, from: Day, n: nat)
    requires from + n - 1 <= today
    ensures ExpectedDays(a, today, from, from + n - 1) == WorkingDays(a.calendar, from, n)
    decreases n
  {
    if n > 0 {
      PastDaysAreExpected(a, today, from, n - 1);
    }
  }

  /** Any two windows of fourteen past days report the same expected days. */
  lemma PastFortnightsExpectAlike(a: Attendance, today: Day, d: Day, e: Day)
    requires d + 13 <= today && e + 13 <= today
    ensures ExpectedDays(a, today, d, d + 13) == ExpectedDays(a, today, e, e + 13) == WorkingDays(a.calendar, d, 14)
  {
    PastDaysAreExpected(a, today, d, 14);
    PastDaysAreExpected(a, today, e, 14);
    EveryFortnightIsAlike(a.calendar, d, e);
  }

  // ---- Every counter as the number of its days, field by field ----

  /** The days of the range the calendar asks for, up to today. */
  function AskedDays(a: Attendance, today: Day, from: Day, till: Day): set<Day> {
    set d | d in DaysBetween(from, till) && d <= today && ResolveEffectiveDay(a.calendar, d).dayType != Off
  }

  function HalfDates(a: Attendance, from: Day, till: Day): set<Day> {
    set d | d in DaysBetween(from, till) && ResolveEffectiveDay(a.calendar, d).dayType == HalfDay
  }

  /** The days with a check-in. */
  function HereDays(a: Attendance, from: Day, till: Day): set<Day> {
    set d | d in DaysBetween(from, till) && d in a.records && a.records[d].checkedIn
  }

  /** The closed days and the days of approved leave. */
  function AwayDays(a: Attendance, from: Day, till: Day): set<Day> {
    set d | d in DaysBetween(from, till)
            && (d in a.closures || exists i :: 0 <= i < |a.leaves| && a.leaves[i].start <= d <= a.leaves[i].end)
  }

  /** Expected is asked for; worked and half worked is asked for with a check-in. */
  lemma WorkedCountersAreTheirDays(a: Attendance, today: Day, from: Day, till: Day)
    ensures var asked, here, half := AskedDays(a, today, from, till), HereDays(a, from, till), HalfDates(a, from, till);
            && ExpectedDays(a, today, from, till) == |asked|
            && WorkedDays(a, today, from, till) == |asked * here - half|
            && HalfDays(a, today, from, till) == |asked * here * half|
  {
    var asked, here, half := AskedDays(a, today, from, till), HereDays(a, from, till), HalfDates(a, from, till);
    hide DaysBetween, ResolveEffectiveDay;
    CountIsSize(d => Expected(a, today, d), from, till, asked);
    CountIsSize(d => Expected(a, today, d) && CheckedIn(a, d) && !IsHalf(a, d), from, till, asked * here - half);
    CountIsSize(d => Expected(a, today, d) && CheckedIn(a, d) && IsHalf(a, d), from, till, asked * here * half);
  }

  lemma OneOfTheDays(a: Attendance, today: Day, from: Day, till: Day, d: Day)
    ensures d in AskedDays(a, today, from, till) <==> from <= d <= till && Expected(a, today, d)
    ensures d in HereDays(a, from, till) <==> from <= d <= till && CheckedIn(a, d)
    ensures !CheckedIn(a, d) ==> (d in AwayDays(a, from, till) <==> from <= d <= till && Excused(a, d))
  {
    hide DaysBetween, ResolveEffectiveDay;
  }

  /** Absent is asked for without check-in, closure or leave; excused is asked for with one of the last two. */
  lemma AbsentCountersAreTheirDays(a: Attendance, today: Day, from: Day, till: Day)
    ensures var asked, here, away := AskedDays(a, today, from, till), HereDays(a, from, till), AwayDays(a, from, till);
            && AbsentDays(a, today, from, till) == |asked - here - away|
            && ExcusedDays(a, today, from, till) == |(asked - here) * away|
  {
    var asked, here, away := AskedDays(a, today, from, till), HereDays(a, from, till), AwayDays(a, from, till);
    forall d ensures d in asked <==> from <= d <= till && Expected(a, today, d)
      ensures d in here <==> from <= d <= till && CheckedIn(a, d)
      ensures !CheckedIn(a, d) ==> (d in away <==> from <= d <= till && Excused(a, d))
    {
      OneOfTheDays(a, today, from, till, d);
    }
    assert forall d :: Excused(a, d) ==> !CheckedIn(a, d);
    hide AskedDays, HereDays, AwayDays, Expected, CheckedIn, Excused;
    CountIsSize(d => Expected(a, today, d) && !CheckedIn(a, d) && !Excused(a, d), from, till, asked - here - away);
    CountIsSize(d => Expected(a, today, d) && Excused(a, d), from, till, (asked - here) * away);
  }

  /** The counters taken from the records alone. */
  lemma StatusCounterIsItsDays(a: Attendance, from: Day, till: Day, status: Status)
    ensures StatusDays(a, status, from, till)
         == |set d | d in DaysBetween(from, till) && d in a.records && a.records[d].status == status|
  {
    CountIsSize(d => HasStatus(a, status, d), from, till,
                set d | d in DaysBetween(from, till) && d in a.records && a.records[d].status == status);
  }

  lemma ExtraCounterIsItsDays(a: Attendance, from: Day, till: Day, extra: ExtraWork)
    ensures ExtraDays(a, extra, from, till)
         == |set d | d in DaysBetween(from, till) && d in a.records && a.records[d].status == ExtraWorkDayPending
                     && a.records[d].extraWork == Some(extra)|
  {
    CountIsSize(d => HasExtra(a, extra, d), from, till,
                set d | d in DaysBetween(from, till) && d in a.records && a.records[d].status == ExtraWorkDayPending
                        && a.records[d].extraWork == Some(extra));
  }

  lemma EarlyCounterIsItsDays(a: Attendance, from: Day, till: Day)
    ensures EarlyDays(a, from, till)
         == |set d | d in DaysBetween(from, till) && d in a.records && a.records[d].earlyDepartureMinutes != None|
  {
    CountIsSize(d => LeftEarly(a, d), from, till,
                set d | d in DaysBetween(from, till) && d in a.records && a.records[d].earlyDepartureMinutes != None);
  }
}

/** Period pay: the salary-to-commission switch, proration over scheduled days, and commission windows. */
module SalaryCalculator {
  import opened Base
  import opened WorkCalendar
  import AS = AttendanceSummary

  // ---- Civil dates ----

  /** A UTC calendar date; months run from 0 as in JavaScript. */
  datatype CivilDate = CivilDate(year: int, month: int, day: int)
  {
    predicate Valid() { 0 <= month < 12 && 1 <= day <= DaysInMonth(year, month) }

    function ToDay(): Day { UtcDay(year, month, day) }
  }

  predicate IsLeap(year: int) { year % 4 == 0 && (year % 100 != 0 || year % 400 == 0) }

  function DaysInMonth(year: int, month: int): int {
    if month == 1 then (if IsLeap(year) then 29 else 28)
    else if month == 3 || month == 5 || month == 8 || month == 10 then 30
    else 31
  }

  /** Leap years, skipped centuries and kept centuries since 1970, before it counted downwards. */
  function Fours(year: int): int { (year - 1969) / 4 }

  function Centuries(year: int): int { (year - 1901) / 100 }

  function FourCenturies(year: int): int { (year - 1601) / 400 }

  function YearStart(year: int): Day { 365 * (year - 1970) + Fours(year) - Centuries(year) + FourCenturies(year) }

  function MonthStart(year: int, month: int): Day {
    if month <= 0 then YearStart(year) else MonthStart(year, month - 1) + DaysInMonth(year, month - 1)
  }

  /** Date.UTC: a day past the end of the month rolls into the next. */
  function UtcDay(year: int, month: int, day: int): Day { MonthStart(year, month) + day - 1 }

  function FollowingMonth(year: int, month: int): (int, int) {
    if month == 11 then (year + 1, 0) else (year, month + 1)
  }

  lemma LeapDays(year: int)
    ensures Fours(year + 1) == Fours(year) + if year % 4 == 0 then 1 else 0
    ensures Centuries(year + 1) == Centuries(year) + if year % 100 == 0 then 1 else 0
    ensures FourCenturies(year + 1) == FourCenturies(year) + if year % 400 == 0 then 1 else 0
  {
  }

  lemma CenturyYears(year: int)
    ensures year % 400 == 0 ==> year % 100 == 0
    ensures year % 100 == 0 ==> year % 4 == 0
  {
  }

  lemma YearLength(year: int)
    ensures YearStart(year + 1) == YearStart(year) + if IsLeap(year) then 366 else 365
  {
    hide Fours, Centuries, FourCenturies;
    LeapDays(year);
    CenturyYears(year);
  }

  /** The first of the following month is the first of this one plus this month's length, across new year too. */
  lemma FollowingMonthStart(year: int, month: int)
    requires 0 <= month < 12
    ensures var (y, m) := FollowingMonth(year, month);
            MonthStart(y, m) == MonthStart(year, month) + DaysInMonth(year, month)
  {
    if month == 11 {
      YearLength(year);
      assert MonthStart(year, 3) == YearStart(year) + 90 + if IsLeap(year) then 1 else 0;
      assert MonthStart(year, 6) == MonthStart(year, 3) + 91;
      assert MonthStart(year, 9) == MonthStart(year, 6) + 92;
      assert MonthStart(year, 11) == MonthStart(year, 9) + 61;
    }
  }

  // ---- The switch from salary to commission ----

  /** Both days included. */
  datatype Range = Range(start: Day, end: Day)
  {
    predicate Has(d: Day) { start <= d <= end }
  }

  datatype Classification = BeforeCutoff | OnOrAfterCutoff

  datatype Split = Split(transition: Day, classification: Classification, salary: Option<Range>,
                         commission: Option<Range>)

  function Classify(hire: CivilDate, cutoffDay: int): Classification {
    if hire.day < cutoffDay then BeforeCutoff else OnOrAfterCutoff
  }

  /** In the month after the hire month: the 1st, or the day after the cutoff. */
  function TransitionDate(hire: CivilDate, cutoffDay: int): Day {
    var (year, month) := FollowingMonth(hire.year, hire.month);
    UtcDay(year, month, if Classify(hire, cutoffDay) == BeforeCutoff then 1 else cutoffDay + 1)
  }

  function ResolveCutoffSplit(hire: CivilDate, cutoffDay: int, period: Range): Split {
    var transition := TransitionDate(hire, cutoffDay);
    var classification := Classify(hire, cutoffDay);
    if period.end < transition then Split(transition, classification, Some(period), None)
    else if period.start >= transition then Split(transition, classification, None, Some(period))
    else Split(transition, classification, Some(Range(period.start, transition - 1)),
               Some(Range(transition, period.end)))
  }

  /** The switch comes after the hire date, unless a negative cutoff reaches back past a month's length. */
  lemma TransitionAfterHireIff(hire: CivilDate, cutoffDay: int)
    requires hire.Valid()
    ensures TransitionDate(hire, cutoffDay) > hire.ToDay()
       <==> cutoffDay >= hire.day - DaysInMonth(hire.year, hire.month)
  {
    FollowingMonthStart(hire.year, hire.month);
  }

  /** How long the salary phase lasts: to the end of the hire month, plus the cutoff if hired on or after it. */
  lemma SalaryPhaseLength(hire: CivilDate, cutoffDay: int)
    requires hire.Valid()
    ensures TransitionDate(hire, cutoffDay) - hire.ToDay()
         == DaysInMonth(hire.year, hire.month) - hire.day + 1 + if hire.day < cutoffDay then 0 else cutoffDay
  {
    FollowingMonthStart(hire.year, hire.month);
  }

  predicate InRange(r: Option<Range>, d: Day) { r.Some? && r.value.Has(d) }

  /** Each day of the period is a salary day before the switch and a commission day from it on, never both. */
  lemma SplitPartitionsThePeriod(hire: CivilDate, cutoffDay: int, period: Range, d: Day)
    requires period.start <= period.end
    ensures var split := ResolveCutoffSplit(hire, cutoffDay, period);
            && (InRange(split.salary, d) <==> period.Has(d) && d < split.transition)
            && (InRange(split.commission, d) <==> period.Has(d) && split.transition <= d)
            && (split.salary.Some? ==> split.salary.value.start <= split.salary.value.end)
            && (split.commission.Some? ==> split.commission.value.start <= split.commission.value.end)
            && (split.salary.Some? || split.commission.Some?)
  {
  }

  /** After a period with any commission day, no later period has a salary day. */
  lemma NeverBackToSalary(hire: CivilDate, cutoffDay: int, earlier: Range, later: Range)
    requires earlier.start <= earlier.end < later.start <= later.end
    requires ResolveCutoffSplit(hire, cutoffDay, earlier).commission.Some?
    ensures ResolveCutoffSplit(hire, cutoffDay, later).salary.None?
  {
  }

  // ---- Commission windows ----

  datatype CommissionRow = CommissionRow(calculatedAt: int, amount: real, approved: bool)

  /** From the first millisecond of the first day to the last of the last. */
  predicate InWindow(r: Range, t: int) { r.start * DAY_MS <= t <= r.end * DAY_MS + DAY_MS - 1 }

  function CommissionEarned(rows: seq<CommissionRow>, r: Range): real {
    if rows == [] then 0.0
    else
      var row := rows[|rows| - 1];
      CommissionEarned(rows[..|rows| - 1], r)
      + if row.approved && InWindow(r, row.calculatedAt) then row.amount else 0.0
  }

  /** Two adjacent ranges share every instant of their union out between them. */
  lemma WindowsMeet(r: Range, mid: Day, t: int)
    requires r.start - 1 <= mid <= r.end
    ensures InWindow(r, t) <==> (InWindow(Range(r.start, mid), t) != InWindow(Range(mid + 1, r.end), t))
    ensures !(InWindow(Range(r.start, mid), t) && InWindow(Range(mid + 1, r.end), t))
  {
  }

  lemma {:induction false} CommissionSplits(rows: seq<CommissionRow>, r: Range, mid: Day)
    requires r.start - 1 <= mid <= r.end
    ensures CommissionEarned(rows, r)
         == CommissionEarned(rows, Range(r.start, mid)) + CommissionEarned(rows, Range(mid + 1, r.end))
    decreases |rows|
  {
    if rows != [] {
      CommissionSplits(rows[..|rows| - 1], r, mid);
      WindowsMeet(r, mid, rows[|rows| - 1].calculatedAt);
    }
  }

  /** What the commission side of a period earns. */
  function CommissionOf(rows: seq<CommissionRow>, hire: CivilDate, cutoffDay: int, period: Range): real {
    var split := ResolveCutoffSplit(hire, cutoffDay, period);
    if split.commission.Some? then CommissionEarned(rows, split.commission.value) else 0.0
  }

  /** Cutting a stretch of time into two pay periods neither loses nor doubles commission, wherever the switch falls. */
  lemma CommissionIndependentOfPeriods(rows: seq<CommissionRow>, hire: CivilDate, cutoffDay: int, whole: Range,
                                       mid: Day)
    requires whole.start <= mid < whole.end
    ensures CommissionOf(rows, hire, cutoffDay, whole)
         == CommissionOf(rows, hire, cutoffDay, Range(whole.start, mid))
          + CommissionOf(rows, hire, cutoffDay, Range(mid + 1, whole.end))
  {
    var t := TransitionDate(hire, cutoffDay);
    if t <= mid {
      CommissionSplits(rows, Range(if whole.start >= t then whole.start else t, whole.end), mid);
    }
  }

  // ---- Workdays of a range ----

  function Scheduled(a: AS.Attendance, today: Day, r: Range): nat { AS.ExpectedDays(a, today, r.start, r.end) }

  function Missed(a: AS.Attendance, today: Day, r: Range): nat { AS.AbsentDays(a, today, r.start, r.end) }

  function Extra(a: AS.Attendance, r: Range): nat { AS.ExtraDays(a, AS.ExtraApproved, r.start, r.end) }

  function Confirmed(a: AS.Attendance, today: Day, r: Range): int {
    Scheduled(a, today, r) - Missed(a, today, r) + Extra(a, r)
  }

  lemma ConfirmedSplits(a: AS.Attendance, today: Day, r: Range, mid: Day)
    requires r.start - 1 <= mid <= r.end
    ensures Confirmed(a, today, r) == Confirmed(a, today, Range(r.start, mid))
              + Confirmed(a, today, Range(mid + 1, r.end))
  {
    AS.SummaryIsAdditive(a, today, r.start, mid, r.end);
  }

  lemma MissedAtMostScheduled(a: AS.Attendance, today: Day, r: Range)
    ensures Missed(a, today, r) <= Scheduled(a, today, r)
  {
    AS.ExpectedDaysAreAccountedFor(a, today, r.start, r.end);
  }

  /** A day's rate times part of the days is at most the whole. */
  lemma Prorate(amount: real, days: nat, part: int)
    requires amount >= 0.0 && 0 <= part <= days && days > 0
    ensures 0.0 <= amount / days as real && 0.0 <= amount / days as real * part as real <= amount
  {
    var rate := amount / days as real;
    assert rate * days as real == amount;
    Spread(rate, part, days - part);
    NonNegative(rate, days - part);
    NonNegative(rate, part);
  }

  lemma Spread(rate: real, m: int, n: int)
    ensures rate * (m + n) as real == rate * m as real + rate * n as real
  {
    assert (m + n) as real == m as real + n as real;
  }

  lemma NonNegative(rate: real, n: int)
    requires rate >= 0.0 && n >= 0
    ensures rate * n as real >= 0.0
  {
  }

  // ---- The calculation ----

  datatype CompensationType = Salary | SalaryToCommission | SalaryPlusCommission | Commission

  datatype Staff = Staff(hireDate: Option<CivilDate>, compensationType: CompensationType, baseSalary: Option<real>)
  {
    function Base(): real { if baseSalary.Some? then baseSalary.value else 0.0 }

    predicate HiredAfter(d: Day) { hireDate.Some? && hireDate.value.ToDay() > d }

    /** The part of the period from the hire date on. */
    function Applicable(period: Range): Range {
      Range(if HiredAfter(period.start) then hireDate.value.ToDay() else period.start, period.end)
    }

    predicate Switches() { compensationType == SalaryToCommission && hireDate.Some? }
  }

  datatype Pay = Pay(
    fullMonthScheduledWorkdays: Option<int>, applicableScheduledWorkdays: Option<int>, missedWorkdays: Option<int>,
    approvedExtraWorkdays: Option<int>, payableWorkdays: Option<int>, dailyRate: Option<real>, salaryEarned: real,
    extraWorkDayEarnings: real, split: Option<Split>, commissionEarned: real, confirmedWorkdays: Option<int>,
    commissionPeriodConfirmedWorkdays: Option<int>, effectiveDailyPay: Option<real>)

  const NO_PAY := Pay(None, None, None, None, None, None, 0.0, 0.0, None, 0.0, None, None, None)

  function Or0(n: Option<int>): int { if n.Some? then n.value else 0 }

  function Rate(amount: real, days: int): real { if days > 0 then amount / days as real else 0.0 }

  /** The workday columns describe this range, and salary and extra earnings follow from the daily rate. */
  ghost predicate SalariedOver(p: Pay, a: AS.Attendance, today: Day, r: Range) {
    && p.applicableScheduledWorkdays == Some(Scheduled(a, today, r)) && p.missedWorkdays == Some(Missed(a, today, r))
    && p.approvedExtraWorkdays == Some(Extra(a, r))
    && p.payableWorkdays == p.confirmedWorkdays == Some(Confirmed(a, today, r))
    && p.dailyRate.Some?
    && p.salaryEarned == p.dailyRate.value * Confirmed(a, today, r) as real
    && p.extraWorkDayEarnings == Extra(a, r) as real * p.dailyRate.value
  }

  method RangeWorkdayBreakdown(a: AS.Attendance, today: Day, r: Range)
    returns (scheduled: int, missed: int, extra: int, confirmed: int)
    ensures scheduled == Scheduled(a, today, r) && missed == Missed(a, today, r) && extra == Extra(a, r)
    ensures confirmed == Confirmed(a, today, r)
  {
    var summary := AS.GetMonthlySummary(a, today, r.start, r.end);
    scheduled, missed, extra := summary.expectedWorkingDays, summary.absentDays, summary.approvedExtraWorkDays;
    confirmed := scheduled - missed + extra;
  }

  method CalculateForStaff(staff: Staff, a: AS.Attendance, rows: seq<CommissionRow>, today: Day, period: Range,
                           cutoffDay: int)
    returns (p: Pay)
    ensures Calculated(p, staff, a, rows, today, period, cutoffDay)
  {
    hide Confirmed, Scheduled, Missed, Extra, Rate, CommissionEarned;
    p := NO_PAY;
    if staff.HiredAfter(period.end) {
      return;
    }
    var applicable := staff.Applicable(period);
    if staff.compensationType == Commission {
      p := CommissionOnlyPay(p, a, rows, today, applicable);
      return;
    }
    var fullMonth, _, _, _ := RangeWorkdayBreakdown(a, today, period);
    p := p.(fullMonthScheduledWorkdays := Some(fullMonth), dailyRate := Some(Rate(staff.Base(), fullMonth)));
    if staff.Switches() {
      p := SplitPay(p, a, rows, today, ResolveCutoffSplit(staff.hireDate.value, cutoffDay, applicable));
      return;
    }
    p := AddSalary(p, a, today, applicable);
    if staff.compensationType == SalaryPlusCommission {
      p := p.(commissionEarned := CommissionEarned(rows, applicable));
    }
    p := p.(effectiveDailyPay := Some(Rate(staff.Base(), p.payableWorkdays.value)));
  }

  method CommissionOnlyPay(start: Pay, a: AS.Attendance, rows: seq<CommissionRow>, today: Day, r: Range)
    returns (p: Pay)
    requires start == NO_PAY
    ensures CommissionOnly(p, a, rows, today, r)
  {
    hide Scheduled, Missed, Extra, Rate, CommissionEarned;
    p := start;
    var scheduled, missed, extra, confirmed := RangeWorkdayBreakdown(a, today, r);
    p := p.(applicableScheduledWorkdays := Some(scheduled), missedWorkdays := Some(missed),
            approvedExtraWorkdays := Some(extra));
    var payable := if confirmed <= scheduled then confirmed else scheduled;
    p := p.(payableWorkdays := Some(payable), confirmedWorkdays := Some(payable));
    var earned := CommissionEarned(rows, r);
    var rate := Rate(earned, scheduled);
    p := p.(commissionEarned := earned, dailyRate := Some(rate));
    var prorated := rate * payable as real;
    p := p.(salaryEarned := if prorated <= earned then prorated else earned);
    p := p.(effectiveDailyPay := Some(Rate(earned, payable)));
  }

  method SplitPay(start: Pay, a: AS.Attendance, rows: seq<CommissionRow>, today: Day, split: Split) returns (p: Pay)
    requires start == NO_PAY.(fullMonthScheduledWorkdays := start.fullMonthScheduledWorkdays,
                              dailyRate := start.dailyRate)
    requires start.dailyRate.Some?
    ensures Switched(p, a, rows, today, split)
    ensures p.fullMonthScheduledWorkdays == start.fullMonthScheduledWorkdays && p.dailyRate == start.dailyRate
  {
    hide Confirmed, Scheduled, Missed, Extra, Rate, CommissionEarned;
    p := start.(split := Some(split));
    if split.salary.Some? {
      p := AddSalary(p, a, today, split.salary.value);
    }
    if split.commission.Some? {
      p := p.(commissionEarned := CommissionEarned(rows, split.commission.value));
      var scheduled, missed, extra, confirmed := RangeWorkdayBreakdown(a, today, split.commission.value);
      p := p.(commissionPeriodConfirmedWorkdays := Some(confirmed));
    }
    var totalPay := p.salaryEarned + p.commissionEarned;
    var totalDays := Or0(p.confirmedWorkdays) + Or0(p.commissionPeriodConfirmedWorkdays);
    p := p.(effectiveDailyPay := Some(Rate(totalPay, totalDays)));
  }

  /** The salary lines of a range, at the daily rate already set; the other lines stay. */
  method AddSalary(p: Pay, a: AS.Attendance, today: Day, r: Range) returns (p2: Pay)
    requires p.dailyRate.Some?
    ensures SalariedOver(p2, a, today, r)
    ensures p2.dailyRate == p.dailyRate && p2.fullMonthScheduledWorkdays == p.fullMonthScheduledWorkdays
    ensures p2.split == p.split && p2.commissionEarned == p.commissionEarned
    ensures p2.commissionPeriodConfirmedWorkdays == p.commissionPeriodConfirmedWorkdays
  {
    hide Confirmed, Scheduled, Missed, Extra, Rate, CommissionEarned;
    var scheduled, missed, extra, confirmed := RangeWorkdayBreakdown(a, today, r);
    var rate := p.dailyRate.value;
    p2 := p.(applicableScheduledWorkdays := Some(scheduled), missedWorkdays := Some(missed),
             approvedExtraWorkdays := Some(extra));
    p2 := p2.(payableWorkdays := Some(confirmed), confirmedWorkdays := Some(confirmed));
    p2 := p2.(salaryEarned := rate * confirmed as real, extraWorkDayEarnings := extra as real * rate);
  }

  /** What each compensation type is paid for a period. */
  ghost predicate Calculated(p: Pay, staff: Staff, a: AS.Attendance, rows: seq<CommissionRow>, today: Day,
                             period: Range,
                             cutoffDay: int)
  {
    var r := staff.Applicable(period);
    if staff.HiredAfter(period.end) then p == NO_PAY
    else if staff.compensationType == Commission then CommissionOnly(p, a, rows, today, r)
    else
      && p.fullMonthScheduledWorkdays == Some(Scheduled(a, today, period))
      && p.dailyRate == Some(Rate(staff.Base(), Scheduled(a, today, period)))
      && (if staff.Switches() then Switched(p, a, rows, today, ResolveCutoffSplit(staff.hireDate.value, cutoffDay, r))
          else
            && SalariedOver(p, a, today, r)
            && p.commissionEarned
                 == (if staff.compensationType == SalaryPlusCommission then CommissionEarned(rows, r) else 0.0)
            && p.effectiveDailyPay == Some(Rate(staff.Base(), Confirmed(a, today, r)))
            && p.commissionPeriodConfirmedWorkdays == None && p.split == None)
  }

  ghost predicate CommissionOnly(p: Pay, a: AS.Attendance, rows: seq<CommissionRow>, today: Day, r: Range) {
    var earned := CommissionEarned(rows, r);
    var payable := if Missed(a, today, r) >= Extra(a, r) then Confirmed(a, today, r) else Scheduled(a, today, r);
    && p.applicableScheduledWorkdays == Some(Scheduled(a, today, r)) && p.missedWorkdays == Some(Missed(a, today, r))
    && p.approvedExtraWorkdays == Some(Extra(a, r))
    && p.payableWorkdays == p.confirmedWorkdays == Some(payable)
    && p.commissionEarned == earned
    && p.dailyRate == Some(Rate(earned, Scheduled(a, today, r)))
    && p.salaryEarned <= earned && p.salaryEarned <= p.dailyRate.value * payable as real
    && (p.salaryEarned == earned || p.salaryEarned == p.dailyRate.value * payable as real)
    && p.effectiveDailyPay == Some(Rate(earned, payable))
    && p.fullMonthScheduledWorkdays == None && p.extraWorkDayEarnings == 0.0 && p.split == None
  }

  ghost predicate Switched(p: Pay, a: AS.Attendance, rows: seq<CommissionRow>, today: Day, split: Split) {
    && p.split == Some(split)
    && (if split.salary.Some? then SalariedOver(p, a, today, split.salary.value)
        else p.salaryEarned == 0.0 && p.extraWorkDayEarnings == 0.0 && p.confirmedWorkdays == None)
    && (if split.commission.Some? then
          && p.commissionEarned == CommissionEarned(rows, split.commission.value)
          && p.commissionPeriodConfirmedWorkdays == Some(Confirmed(a, today, split.commission.value))
        else p.commissionEarned == 0.0 && p.commissionPeriodConfirmedWorkdays == None)
    && p.effectiveDailyPay == Some(Rate(p.salaryEarned + p.commissionEarned,
                                        Or0(p.confirmedWorkdays) + Or0(p.commissionPeriodConfirmedWorkdays)))
  }

  // ---- What the calculation guarantees ----

  /** Salaried pay over any part of the period stays between nothing and base plus extra-day earnings. */
  lemma SalariedPayIsBounded(p: Pay, a: AS.Attendance, today: Day, period: Range, r: Range, base: real)
    requires period.start <= r.start <= r.end + 1 && r.end <= period.end && base >= 0.0
    requires p.dailyRate == Some(Rate(base, Scheduled(a, today, period))) && SalariedOver(p, a, today, r)
    ensures 0.0 <= p.salaryEarned <= base + p.extraWorkDayEarnings
  {
    hide Rate;
    MissedAtMostScheduled(a, today, r);
    PartSchedulesNoMore(a, today, period, r);
    SalaryArithmetic(base, Scheduled(a, today, period), Confirmed(a, today, r), Extra(a, r));
  }

  lemma PartSchedulesNoMore(a: AS.Attendance, today: Day, period: Range, r: Range)
    requires period.start <= r.start <= r.end + 1 && r.end <= period.end
    ensures Scheduled(a, today, r) <= Scheduled(a, today, period)
  {
    AS.SummaryIsAdditive(a, today, period.start, r.end, period.end);
    AS.PartOfPeriod(a, today, period.start, r.start, r.end);
  }

  lemma SalaryArithmetic(base: real, full: nat, confirmed: int, extra: nat)
    requires base >= 0.0 && 0 <= confirmed - extra <= full
    ensures 0.0 <= Rate(base, full) * confirmed as real <= base + extra as real * Rate(base, full)
  {
    var rate := Rate(base, full);
    if full > 0 {
      Prorate(base, full, confirmed - extra);
      NonNegative(rate, extra);
      Spread(rate, confirmed - extra, extra);
    }
  }

  /** Commission-only pay never exceeds the commission, and is all of it when no more days were missed than made up. */
  lemma CommissionOnlyPayIsBounded(p: Pay, a: AS.Attendance, rows: seq<CommissionRow>, today: Day, r: Range)
    requires CommissionOnly(p, a, rows, today, r) && p.commissionEarned >= 0.0
    ensures 0.0 <= p.salaryEarned <= p.commissionEarned
    ensures Scheduled(a, today, r) > 0 && Missed(a, today, r) <= Extra(a, r) ==> p.salaryEarned == p.commissionEarned
    ensures Scheduled(a, today, r) == 0 ==> p.salaryEarned == 0.0
  {
    MissedAtMostScheduled(a, today, r);
    var scheduled := Scheduled(a, today, r);
    if scheduled > 0 {
      Prorate(p.commissionEarned, scheduled, p.payableWorkdays.value);
    }
  }

  /** In a split period the two sides' confirmed days are those of the whole applicable range. */
  lemma SplitDaysAddUp(p: Pay, a: AS.Attendance, rows: seq<CommissionRow>, today: Day, hire: CivilDate,
                       cutoffDay: int, r: Range)
    requires r.start <= r.end && Switched(p, a, rows, today, ResolveCutoffSplit(hire, cutoffDay, r))
    ensures Or0(p.confirmedWorkdays) + Or0(p.commissionPeriodConfirmedWorkdays) == Confirmed(a, today, r)
  {
    var split := ResolveCutoffSplit(hire, cutoffDay, r);
    if split.salary.Some? && split.commission.Some? {
      ConfirmedSplits(a, today, r, split.transition - 1);
    }
  }

  /** The whole calculation: bounds for every compensation type, and day totals in a split period. */
  lemma PayIsBounded(p: Pay, staff: Staff, a: AS.Attendance, rows: seq<CommissionRow>, today: Day, period: Range,
                     cutoffDay: int)
    requires Calculated(p, staff, a, rows, today, period, cutoffDay)
    requires period.start <= period.end && staff.Base() >= 0.0
    ensures staff.compensationType != Commission ==> 0.0 <= p.salaryEarned <= staff.Base() + p.extraWorkDayEarnings
    ensures staff.compensationType == Commission && p.commissionEarned >= 0.0 ==>
              0.0 <= p.salaryEarned <= p.commissionEarned
    ensures staff.Switches() && !staff.HiredAfter(period.end) ==>
              Or0(p.confirmedWorkdays) + Or0(p.commissionPeriodConfirmedWorkdays)
                  == Confirmed(a, today, staff.Applicable(period))
  {
    if staff.HiredAfter(period.end) {
      return;
    }
    var r := staff.Applicable(period);
    if staff.compensationType == Commission {
      if p.commissionEarned >= 0.0 {
        CommissionOnlyPayIsBounded(p, a, rows, today, r);
      }
    } else if !staff.Switches() {
      SalariedPayIsBounded(p, a, today, period, r, staff.Base());
    } else {
      var split := ResolveCutoffSplit(staff.hireDate.value, cutoffDay, r);
      if split.salary.Some? {
        SalariedPayIsBounded(p, a, today, period, split.salary.value, staff.Base());
      }
      SplitDaysAddUp(p, a, rows, today, staff.hireDate.value, cutoffDay, r);
    }
  }

  // ---- What a commission row adds ----

  /** The day falls in the period and in the employment, and this kind of employment earns commission on it. */
  predicate EarnsCommissionOn(staff: Staff, period: Range, cutoffDay: int, d: Day) {
    && period.start <= d <= period.end
    && (staff.hireDate.Some? ==> staff.hireDate.value.ToDay() <= d)
    && match staff.compensationType
       case Salary => false
       case SalaryPlusCommission => true
       case Commission => true
       case SalaryToCommission => staff.hireDate.Some? && TransitionDate(staff.hireDate.value, cutoffDay) <= d
  }

  lemma WindowIsUtcDays(r: Range, at: int)
    ensures InWindow(r, at) <==> r.start <= at / DAY_MS <= r.end
  {
    assert at == DAY_MS * (at / DAY_MS) + at % DAY_MS;
  }

  lemma {:induction false} InsertedRow(before: seq<CommissionRow>, row: CommissionRow, after: seq<CommissionRow>,
                                       r: Range)
    ensures CommissionEarned(before + [row] + after, r)
         == CommissionEarned(before + after, r)
          + if row.approved && InWindow(r, row.calculatedAt) then row.amount else 0.0
    decreases |after|
  {
    hide InWindow;
    if after == [] {
      assert before + [row] + after == before + [row] && before + after == before;
      assert (before + [row])[..|before|] == before;
    } else {
      var n := |after| - 1;
      InsertedRow(before, row, after[..n], r);
      assert (before + [row] + after)[..|before| + 1 + n] == before + [row] + after[..n];
      assert (before + after)[..|before| + n] == before + after[..n];
    }
  }

  /** The stretch commission is summed over, if any. */
  function CommissionRange(staff: Staff, period: Range, cutoffDay: int): Option<Range> {
    if staff.HiredAfter(period.end) || staff.compensationType == Salary then None
    else if staff.compensationType == SalaryToCommission then
      if staff.hireDate.None? then None
      else ResolveCutoffSplit(staff.hireDate.value, cutoffDay, staff.Applicable(period)).commission
    else Some(staff.Applicable(period))
  }

  lemma CommissionRangeIsItsDays(staff: Staff, period: Range, cutoffDay: int, d: Day)
    ensures InRange(CommissionRange(staff, period, cutoffDay), d) <==> EarnsCommissionOn(staff, period, cutoffDay, d)
  {
    hide TransitionDate, Classify;
  }

  lemma CommissionIsOverItsRange(p: Pay, staff: Staff, a: AS.Attendance, rows: seq<CommissionRow>, today: Day,
                                 period: Range, cutoffDay: int)
    requires Calculated(p, staff, a, rows, today, period, cutoffDay)
    ensures var r := CommissionRange(staff, period, cutoffDay);
            p.commissionEarned == if r.Some? then CommissionEarned(rows, r.value) else 0.0
  {
    hide CommissionEarned, Rate, Scheduled, Confirmed, TransitionDate;
  }

  /**
   * A commission row adds its amount if it is approved and dated on a day this person earns commission,
   * and nothing otherwise, wherever it stands; without rows there is no commission.
   */
  lemma CommissionCountsRow(p: Pay, q: Pay, staff: Staff, a: AS.Attendance, before: seq<CommissionRow>,
                            row: CommissionRow, after: seq<CommissionRow>, today: Day, period: Range, cutoffDay: int)
    requires Calculated(p, staff, a, before + after, today, period, cutoffDay)
    requires Calculated(q, staff, a, before + [row] + after, today, period, cutoffDay)
    ensures q.commissionEarned
         == p.commissionEarned
          + if row.approved && EarnsCommissionOn(staff, period, cutoffDay, row.calculatedAt / DAY_MS) then row.amount
            else 0.0
    ensures before + after == [] ==> p.commissionEarned == 0.0
  {
    var r := CommissionRange(staff, period, cutoffDay);
    CommissionIsOverItsRange(p, staff, a, before + after, today, period, cutoffDay);
    CommissionIsOverItsRange(q, staff, a, before + [row] + after, today, period, cutoffDay);
    CommissionRangeIsItsDays(staff, period, cutoffDay, row.calculatedAt / DAY_MS);
    hide Calculated, EarnsCommissionOn, CommissionRange;
    if r.Some? {
      InsertedRow(before, row, after, r.value);
      WindowIsUtcDays(r.value, row.calculatedAt);
    }
  }

  // ---- Pay is in proportion to days ----

  lemma RateTimes(amount: real, days: int, part: real)
    requires days > 0
    ensures Rate(amount, days) * days as real == amount
    ensures Rate(amount, days) * part * days as real == amount * part
  {
    var rate := Rate(amount, days);
    assert rate * days as real == amount;
    assert rate * part * days as real == rate * days as real * part;
  }

  /** Days asked for, less absent ones, plus approved extra ones. */
  function WorkedFor(a: AS.Attendance, today: Day, r: Range): int {
    AS.ExpectedDays(a, today, r.start, r.end) - AS.AbsentDays(a, today, r.start, r.end)
    + AS.ExtraDays(a, AS.ExtraApproved, r.start, r.end)
  }

  /** What a salaried person is paid for the salary part of a period, told as a proportion of the full month. */
  ghost predicate SalaryInProportion(p: Pay, a: AS.Attendance, today: Day, period: Range, part: Range, base: real) {
    var full := AS.ExpectedDays(a, today, period.start, period.end);
    var extra := AS.ExtraDays(a, AS.ExtraApproved, part.start, part.end);
    if full == 0 then p.salaryEarned == p.extraWorkDayEarnings == 0.0
    else
      && p.salaryEarned * full as real == base * WorkedFor(a, today, part) as real
      && p.extraWorkDayEarnings * full as real == base * extra as real
  }

  lemma ProportionalPay(base: real, full: int, days: int, pay: real)
    requires pay == Rate(base, full) * days as real
    ensures if full > 0 then pay * full as real == base * days as real else pay == 0.0
  {
    if full > 0 {
      RateTimes(base, full, days as real);
    }
  }

  lemma ConfirmedIsWorkedFor(a: AS.Attendance, today: Day, r: Range)
    ensures Confirmed(a, today, r) == WorkedFor(a, today, r)
  {
  }

  lemma SalariedOverInProportion(p: Pay, a: AS.Attendance, today: Day, period: Range, part: Range, base: real)
    requires SalariedOver(p, a, today, part) && p.dailyRate == Some(Rate(base, Scheduled(a, today, period)))
    ensures SalaryInProportion(p, a, today, period, part, base)
  {
    hide Rate, Confirmed, WorkedFor;
    ConfirmedIsWorkedFor(a, today, part);
    ProportionalPay(base, Scheduled(a, today, period), Confirmed(a, today, part), p.salaryEarned);
    ProportionalPay(base, Scheduled(a, today, period), Extra(a, part), p.extraWorkDayEarnings);
  }

  lemma RateTimesDays(amount: real, days: int)
    requires days > 0
    ensures Rate(amount, days) * days as real == amount
  {
  }

  /**
   * Salaried pay is the base in proportion to the days worked, over the whole employment in the period
   * or, for someone who switches, up to the switch; with no switch, the effective daily pay is the
   * base spread over the days worked.
   */
  lemma SalaryIsProRata(p: Pay, staff: Staff, a: AS.Attendance, rows: seq<CommissionRow>, today: Day, period: Range,
                        cutoffDay: int)
    requires Calculated(p, staff, a, rows, today, period, cutoffDay)
    requires !staff.HiredAfter(period.end) && staff.compensationType != Commission
    ensures var r := staff.Applicable(period);
            var base := if staff.baseSalary == None then 0.0 else staff.baseSalary.value;
            if !staff.Switches() then
              && SalaryInProportion(p, a, today, period, r, base)
              && p.effectiveDailyPay.Some?
              && (WorkedFor(a, today, r) > 0 ==>
                    p.effectiveDailyPay.value * WorkedFor(a, today, r) as real == base)
            else
              var switch := TransitionDate(staff.hireDate.value, cutoffDay);
              if r.start < switch || r.end < switch then
                SalaryInProportion(p, a, today, period, Range(r.start, if r.end < switch then r.end else switch - 1),
                                   base)
              else p.salaryEarned == p.extraWorkDayEarnings == 0.0
    ensures var worked := WorkedFor(a, today, staff.Applicable(period));
            staff.Switches() && period.start <= period.end && worked > 0 ==>
              p.effectiveDailyPay.Some?
              && p.effectiveDailyPay.value * worked as real == p.salaryEarned + p.commissionEarned
  {
    hide Rate, SalaryInProportion, SalariedOver, WorkedFor, Confirmed, Scheduled, TransitionDate, Classify;
    var r := staff.Applicable(period);
    if !staff.Switches() {
      SalariedOverInProportion(p, a, today, period, r, staff.Base());
      ConfirmedIsWorkedFor(a, today, r);
      if WorkedFor(a, today, r) > 0 {
        RateTimesDays(staff.Base(), WorkedFor(a, today, r));
      }
    } else {
      var split := ResolveCutoffSplit(staff.hireDate.value, cutoffDay, r);
      if split.salary.Some? {
        SalariedOverInProportion(p, a, today, period, split.salary.value, staff.Base());
      }
      if period.start <= period.end && WorkedFor(a, today, r) > 0 {
        SplitDaysAddUp(p, a, rows, today, staff.hireDate.value, cutoffDay, r);
        ConfirmedIsWorkedFor(a, today, r);
        RateTimesDays(p.salaryEarned + p.commissionEarned, WorkedFor(a, today, r));
      }
    }
  }

  /**
   * Commission-only pay is the commission in proportion to the days worked out of the days expected,
   * at most all of it.
   */
  lemma CommissionPayIsProRata(p: Pay, staff: Staff, a: AS.Attendance, rows: seq<CommissionRow>, today: Day,
                               period: Range, cutoffDay: int)
    requires Calculated(p, staff, a, rows, today, period, cutoffDay)
    requires !staff.HiredAfter(period.end) && staff.compensationType == Commission && p.commissionEarned >= 0.0
    ensures var r := staff.Applicable(period);
            var expected, worked := AS.ExpectedDays(a, today, r.start, r.end), WorkedFor(a, today, r);
            if expected == 0 then p.salaryEarned == 0.0
            else if worked >= expected then p.salaryEarned == p.commissionEarned
            else p.salaryEarned * expected as real == p.commissionEarned * worked as real
  {
    var r := staff.Applicable(period);
    var expected := Scheduled(a, today, r);
    MissedAtMostScheduled(a, today, r);
    if expected > 0 {
      Prorate(p.commissionEarned, expected, p.payableWorkdays.value);
      RateTimes(p.commissionEarned, expected, p.payableWorkdays.value as real);
      RateTimes(p.commissionEarned, expected, 0.0);
    }
  }

  /** Its effective daily pay is the commission spread over the days paid. */
  lemma CommissionDailyPay(p: Pay, staff: Staff, a: AS.Attendance, rows: seq<CommissionRow>, today: Day,
                           period: Range, cutoffDay: int)
    requires Calculated(p, staff, a, rows, today, period, cutoffDay)
    requires !staff.HiredAfter(period.end) && staff.compensationType == Commission
    ensures var r := staff.Applicable(period);
            var expected, worked := AS.ExpectedDays(a, today, r.start, r.end), WorkedFor(a, today, r);
            var paid := if worked <= expected then worked else expected;
            paid > 0 ==> p.effectiveDailyPay.Some? && p.effectiveDailyPay.value * paid as real == p.commissionEarned
  {
    if p.payableWorkdays.value > 0 {
      RateTimesDays(p.commissionEarned, p.payableWorkdays.value);
    }
    hide Rate;
  }

  // ---- Who is paid from when ----

  /** The employment's part of the period: none if hired after its end, otherwise its days from the hire date on. */
  lemma ApplicableIsEmployment(staff: Staff, period: Range, d: Day)
    ensures (!staff.HiredAfter(period.end) && staff.Applicable(period).Has(d))
       <==> period.Has(d) && (staff.hireDate.Some? ==> staff.hireDate.value.ToDay() <= d)
  {
  }

  // ---- The calendar's anchor ----

  function NextDate(c: CivilDate): CivilDate {
    if c.day < DaysInMonth(c.year, c.month) then c.(day := c.day + 1)
    else
      var (year, month) := FollowingMonth(c.year, c.month);
      CivilDate(year, month, 1)
  }

  /** Day 0 is 1970-01-01, the biweekly epoch is 2024-01-01, and each date is one day after the one before it. */
  lemma DaysAreCounted(c: CivilDate)
    requires c.Valid()
    ensures CivilDate(1970, 0, 1).ToDay() == 0 && CivilDate(2024, 0, 1).ToDay() == BIWEEKLY_EPOCH
    ensures NextDate(c).Valid() && NextDate(c).ToDay() == c.ToDay() + 1
  {
    FollowingMonthStart(c.year, c.month);
  }
}

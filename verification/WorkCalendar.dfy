/** Staff work calendars: a weekly pattern with every-other-week days, resolved for any date. */
module WorkCalendar {
  import opened Base

  datatype DayType = Working | Off | HalfDay

  datatype CalendarRow = CalendarRow(
    dayType: DayType, resumeTime: Option<TimeOfDay>, closingTime: Option<TimeOfDay>,
    alternatesBiweekly: bool, activeWeekParity: Option<int>, alternateDayType: Option<DayType>)
  {
    predicate Alternates() { alternatesBiweekly && activeWeekParity.Some? && alternateDayType.Some? }
  }

  datatype BusinessHours = BusinessHours(dayOfWeek: int, isOpen: bool, openTime: TimeOfDay, closeTime: TimeOfDay)

  datatype Origin = StaffCalendar | StaffCalendarAlternate | BusinessHoursDefault

  datatype EffectiveDay = EffectiveDay(
    dayOfWeek: int, dayType: DayType, resumeTime: Option<TimeOfDay>, closingTime: Option<TimeOfDay>, origin: Origin)

  /** One staff member's rows by day of week, and the company's opening hours. */
  datatype Calendar = Calendar(rows: map<int, CalendarRow>, hours: seq<BusinessHours>)

  /** 2024-01-01, a Monday. */
  const BIWEEKLY_EPOCH: Day := 19723

  /** 0 is Sunday; 1970-01-01 was a Thursday. */
  function DayOfWeek(d: Day): int { (d + 4) % 7 }

  /** JavaScript's %, whose sign follows the dividend. */
  function Remainder(a: int, b: int): int
    requires b > 0
  {
    if a >= 0 then a % b else -((-a) % b)
  }

  function WeekParityFor(d: Day): int {
    var weeksSinceEpoch := ((d - BIWEEKLY_EPOCH) * DAY_MS) / (7 * DAY_MS);
    Remainder(Remainder(weeksSinceEpoch, 2) + 2, 2)
  }

  function HoursFor(hours: seq<BusinessHours>, dayOfWeek: int): Option<BusinessHours> {
    if hours == [] then None
    else if hours[0].dayOfWeek == dayOfWeek then Some(hours[0])
    else HoursFor(hours[1..], dayOfWeek)
  }

  /** Without any opening hours the day counts as open. */
  function DefaultType(hours: seq<BusinessHours>, dayOfWeek: int): DayType {
    var b := HoursFor(hours, dayOfWeek);
    if b.None? || b.value.isOpen then Working else Off
  }

  function ResolveEffectiveDay(c: Calendar, d: Day): EffectiveDay {
    var dayOfWeek := DayOfWeek(d);
    if dayOfWeek !in c.rows then
      var b := HoursFor(c.hours, dayOfWeek);
      EffectiveDay(dayOfWeek, DefaultType(c.hours, dayOfWeek),
                   if b.Some? then Some(b.value.openTime) else None, if b.Some? then Some(b.value.closeTime) else None,
                   BusinessHoursDefault)
    else
      var row := c.rows[dayOfWeek];
      if row.Alternates() && WeekParityFor(d) != row.activeWeekParity.value then
        EffectiveDay(dayOfWeek, row.alternateDayType.value, None, None, StaffCalendarAlternate)
      else
        EffectiveDay(dayOfWeek, row.dayType, row.resumeTime, row.closingTime, StaffCalendar)
  }

  // ---- Two weeks and everything repeats ----

  /** Parity is 0 or 1, before the epoch too, and flips from week to week. */
  lemma ParityFlips(d: Day)
    ensures WeekParityFor(d) == ((d - BIWEEKLY_EPOCH) / 7) % 2
    ensures WeekParityFor(d) == 0 || WeekParityFor(d) == 1
    ensures WeekParityFor(d + 7) == 1 - WeekParityFor(d)
  {
    ScaledWeeks(d - BIWEEKLY_EPOCH);
    ScaledWeeks(d + 7 - BIWEEKLY_EPOCH);
  }

  lemma ScaledWeeks(x: int)
    ensures (x * DAY_MS) / (7 * DAY_MS) == x / 7
  {
    var q := x / 7;
    assert x * DAY_MS == q * (7 * DAY_MS) + (x % 7) * DAY_MS;
    assert 0 <= (x % 7) * DAY_MS < 7 * DAY_MS;
  }

  lemma RepeatsEveryTwoWeeks(c: Calendar, d: Day)
    ensures ResolveEffectiveDay(c, d + 14) == ResolveEffectiveDay(c, d)
  {
    ParityFlips(d);
    ParityFlips(d + 7);
    assert DayOfWeek(d + 14) == DayOfWeek(d);
  }

  /** Of two consecutive same weekdays exactly one takes an alternating row's own rule, given a real parity. */
  lemma OneOfTwoWeeksIsPrimary(c: Calendar, d: Day)
    requires DayOfWeek(d) in c.rows && c.rows[DayOfWeek(d)].Alternates()
    ensures var first, second := ResolveEffectiveDay(c, d).origin, ResolveEffectiveDay(c, d + 7).origin;
            var parity := c.rows[DayOfWeek(d)].activeWeekParity.value;
            && ((first == StaffCalendar) != (second == StaffCalendar) <==> parity == 0 || parity == 1)
            && (parity != 0 && parity != 1 ==> first == second == StaffCalendarAlternate)
  {
    ParityFlips(d);
    assert DayOfWeek(d + 7) == DayOfWeek(d);
    hide WeekParityFor, DayOfWeek;
  }

  predicate Works(c: Calendar, d: Day) {
    ResolveEffectiveDay(c, d).dayType != Off
  }

  /** Working days among the n days from d. */
  function WorkingDays(c: Calendar, d: Day, n: nat): nat {
    if n == 0 then 0 else WorkingDays(c, d, n - 1) + if Works(c, d + n - 1) then 1 else 0
  }

  lemma {:induction false} ShiftWindow(c: Calendar, d: Day, n: nat)
    ensures WorkingDays(c, d, n + 1) == WorkingDays(c, d + 1, n) + if Works(c, d) then 1 else 0
    decreases n
  {
    if n > 0 {
      ShiftWindow(c, d, n - 1);
    }
  }

  lemma {:induction false} FortnightFrom(c: Calendar, d: Day, k: nat)
    ensures WorkingDays(c, d + k, 14) == WorkingDays(c, d, 14)
    decreases k
  {
    if k > 0 {
      FortnightFrom(c, d, k - 1);
      ShiftWindow(c, d + k - 1, 14);
      RepeatsEveryTwoWeeks(c, d + k - 1);
      assert WorkingDays(c, d + k - 1, 15) == WorkingDays(c, d + k - 1, 14) + if Works(c, d + k - 1 + 14) then 1 else 0;
    }
  }

  /** Any fourteen consecutive days hold the same number of working days. */
  lemma EveryFortnightIsAlike(c: Calendar, d: Day, e: Day)
    ensures WorkingDays(c, d, 14) == WorkingDays(c, e, 14)
  {
    if d <= e {
      FortnightFrom(c, d, e - d);
    } else {
      FortnightFrom(c, e, d - e);
    }
  }

  // ---- Setting a calendar ----

  /** One day of the request: undefined fields are None. */
  datatype DaySetting = DaySetting(
    dayOfWeek: int, dayType: DayType, resumeTime: Option<TimeOfDay>, closingTime: Option<TimeOfDay>,
    alternatesBiweekly: bool, activeWeekParity: Option<int>, alternateDayType: Option<DayType>)
  {
    predicate Complete() {
      && (dayType != Off ==> resumeTime.Some? && closingTime.Some?)
      && (alternatesBiweekly ==> activeWeekParity.Some? && alternateDayType.Some?)
    }

    function Row(): CalendarRow {
      CalendarRow(dayType, if dayType == Off then None else resumeTime, if dayType == Off then None else closingTime,
                  alternatesBiweekly, if alternatesBiweekly then activeWeekParity else None,
                  if alternatesBiweekly then alternateDayType else None)
    }
  }

  function SetRows(rows: map<int, CalendarRow>, days: seq<DaySetting>): map<int, CalendarRow> {
    if days == [] then rows
    else SetRows(rows, days[..|days| - 1])[days[|days| - 1].dayOfWeek := days[|days| - 1].Row()]
  }

  /** An existing row gets new times but keeps its alternation; a new row has none. */
  function UpsertHours(rows: map<int, CalendarRow>, b: BusinessHours): map<int, CalendarRow> {
    var dayType := if b.isOpen then Working else Off;
    var opens := if b.isOpen then Some(b.openTime) else None;
    var closes := if b.isOpen then Some(b.closeTime) else None;
    if b.dayOfWeek in rows then
      rows[b.dayOfWeek := rows[b.dayOfWeek].(dayType := dayType, resumeTime := opens, closingTime := closes)]
    else
      rows[b.dayOfWeek := CalendarRow(dayType, opens, closes, false, None, None)]
  }

  function ApplyHours(rows: map<int, CalendarRow>, hours: seq<BusinessHours>, existing: set<int>, overwrite: bool)
    : map<int, CalendarRow>
  {
    if hours == [] then rows
    else
      var b := hours[|hours| - 1];
      var before := ApplyHours(rows, hours[..|hours| - 1], existing, overwrite);
      if overwrite || b.dayOfWeek !in existing then UpsertHours(before, b) else before
  }

  /** Every staff member's rows; a staff id without a key does not exist. */
  class StaffWorkCalendarService {
    var calendars: map<Id, map<int, CalendarRow>>
    var hours: seq<BusinessHours>

    constructor (staff: set<Id>, hours: seq<BusinessHours>)
      ensures this.calendars == (map s | s in staff :: map[]) && this.hours == hours
    {
      this.calendars := map s | s in staff :: map[];
      this.hours := hours;
    }

    method SetCalendar(staff: Id, days: seq<DaySetting>) returns (r: Result<Calendar>)
      modifies this`calendars
      ensures staff !in old(calendars) ==> r == Err(NotFound) && calendars == old(calendars)
      ensures staff in old(calendars) && !(forall i | 0 <= i < |days| :: days[i].Complete()) ==>
                r == Err(BadRequest) && calendars == old(calendars)
      ensures staff in old(calendars) && (forall i | 0 <= i < |days| :: days[i].Complete()) ==>
                && calendars == old(calendars)[staff := SetRows(old(calendars)[staff], days)]
                && r == Ok(Calendar(calendars[staff], hours))
    {
      if staff !in calendars {
        return Err(NotFound);
      }
      for i := 0 to |days|
        invariant forall j | 0 <= j < i :: days[j].Complete()
      {
        if days[i].dayType != Off && (days[i].resumeTime.None? || days[i].closingTime.None?) {
          return Err(BadRequest);
        }
        if days[i].alternatesBiweekly && (days[i].activeWeekParity.None? || days[i].alternateDayType.None?) {
          return Err(BadRequest);
        }
      }
      var rows := calendars[staff];
      for i := 0 to |days|
        invariant rows == SetRows(calendars[staff], days[..i])
      {
        rows := rows[days[i].dayOfWeek := days[i].Row()];
        assert days[..i + 1][..i] == days[..i];
      }
      assert days[..|days|] == days;
      calendars := calendars[staff := rows];
      r := Ok(Calendar(rows, hours));
    }

    method ApplyBusinessHoursDefault(staff: Id, overwrite: bool) returns (r: Result<Calendar>)
      modifies this`calendars
      ensures staff !in old(calendars) ==> r == Err(NotFound) && calendars == old(calendars)
      ensures staff in old(calendars) ==>
                var rows := old(calendars)[staff];
                && calendars == old(calendars)[staff := ApplyHours(rows, hours, rows.Keys, overwrite)]
                && r == Ok(Calendar(calendars[staff], hours))
    {
      if staff !in calendars {
        return Err(NotFound);
      }
      var rows := calendars[staff];
      var existing := rows.Keys;
      for i := 0 to |hours|
        invariant rows == ApplyHours(calendars[staff], hours[..i], existing, overwrite)
      {
        assert hours[..i + 1][..i] == hours[..i];
        if overwrite || hours[i].dayOfWeek !in existing {
          rows := UpsertHours(rows, hours[i]);
        }
      }
      assert hours[..|hours|] == hours;
      calendars := calendars[staff := rows];
      r := Ok(Calendar(rows, hours));
    }
  }

  predicate OnePerDay(hours: seq<BusinessHours>) {
    forall i, j | 0 <= i < j < |hours| :: hours[i].dayOfWeek != hours[j].dayOfWeek
  }

  lemma {:induction false} HoursForFinds(hours: seq<BusinessHours>, i: nat)
    requires OnePerDay(hours) && i < |hours|
    ensures HoursFor(hours, hours[i].dayOfWeek) == Some(hours[i])
    decreases |hours|
  {
    if i > 0 {
      assert hours[0].dayOfWeek != hours[i].dayOfWeek;
      HoursForFinds(hours[1..], i - 1);
    }
  }

  /** Each day's row after applying the hours, spelled out. */
  lemma {:induction false} AppliedRow(rows: map<int, CalendarRow>, hours: seq<BusinessHours>, existing: set<int>,
                                      overwrite: bool, k: int)
    requires OnePerDay(hours)
    ensures var after := ApplyHours(rows, hours, existing, overwrite);
            if exists i :: 0 <= i < |hours| && hours[i].dayOfWeek == k && (overwrite || k !in existing) then
              exists i :: 0 <= i < |hours| && hours[i].dayOfWeek == k && k in after
                && after[k] == UpsertHours(rows, hours[i])[k]
            else (k in after <==> k in rows) && (k in rows ==> after[k] == rows[k])
    decreases |hours|
  {
    if hours != [] {
      var n := |hours| - 1;
      AppliedRow(rows, hours[..n], existing, overwrite, k);
      var after := ApplyHours(rows, hours, existing, overwrite);
      if hours[n].dayOfWeek == k {
        if overwrite || k !in existing {
          assert after[k] == UpsertHours(rows, hours[n])[k];
        }
      } else {
        var before := ApplyHours(rows, hours[..n], existing, overwrite);
        assert k in after <==> k in before;
        if i :| 0 <= i < |hours| && hours[i].dayOfWeek == k && (overwrite || k !in existing) {
          assert hours[..n][i].dayOfWeek == k;
          var j :| 0 <= j < n && hours[..n][j].dayOfWeek == k && k in before
              && before[k] == UpsertHours(rows, hours[..n][j])[k];
          assert hours[j].dayOfWeek == k && after[k] == UpsertHours(rows, hours[j])[k];
        }
      }
    }
  }

  /**
   * Overwriting with the company hours does not clear an alternating row: the day really becomes
   * the company's exactly when the old row does not send this date to a different alternate type.
   */
  lemma OverwriteRestoresDefaultIff(c: Calendar, d: Day, i: nat)
    requires OnePerDay(c.hours) && i < |c.hours| && c.hours[i].dayOfWeek == DayOfWeek(d)
    ensures var k := DayOfWeek(d);
            var after := Calendar(ApplyHours(c.rows, c.hours, c.rows.Keys, true), c.hours);
            ResolveEffectiveDay(after, d).dayType == DefaultType(c.hours, k) <==>
            !(k in c.rows && c.rows[k].Alternates() && WeekParityFor(d) != c.rows[k].activeWeekParity.value
              && c.rows[k].alternateDayType.value != DefaultType(c.hours, k))
  {
    var k := DayOfWeek(d);
    AppliedRow(c.rows, c.hours, c.rows.Keys, true, k);
    var after := ApplyHours(c.rows, c.hours, c.rows.Keys, true);
    var j :| 0 <= j < |c.hours| && c.hours[j].dayOfWeek == k && k in after
        && after[k] == UpsertHours(c.rows, c.hours[j])[k];
    assert i == j;
    HoursForFinds(c.hours, i);
  }

  /** Alternate Saturdays off, for a company that is open on Saturdays. */
  const EVERY_OTHER_SATURDAY := DaySetting(6, Working, Some(540), Some(1080), true, Some(0), Some(Off))

  const OPEN_SATURDAYS := [BusinessHours(6, true, 540, 1080)]

  /**
   * Set on an empty calendar and then overwritten with the company hours, the Saturday of the epoch's
   * second week is still off.
   */
  lemma AlternationSurvivesOverwrite()
    ensures EVERY_OTHER_SATURDAY.Complete() && DefaultType(OPEN_SATURDAYS, 6) == Working
    ensures var rows := SetRows(map[], [EVERY_OTHER_SATURDAY]);
            var after := Calendar(ApplyHours(rows, OPEN_SATURDAYS, rows.Keys, true), OPEN_SATURDAYS);
            && DayOfWeek(BIWEEKLY_EPOCH + 12) == 6
            && ResolveEffectiveDay(after, BIWEEKLY_EPOCH + 12).dayType == Off
  {
    var rows := SetRows(map[], [EVERY_OTHER_SATURDAY]);
    assert OPEN_SATURDAYS[..0] == [] && [EVERY_OTHER_SATURDAY][..0] == [];
    assert rows == SetRows(map[], [])[6 := EVERY_OTHER_SATURDAY.Row()];
    assert WeekParityFor(BIWEEKLY_EPOCH + 12) == 1;
    assert ApplyHours(rows, OPEN_SATURDAYS, rows.Keys, true) == UpsertHours(rows, OPEN_SATURDAYS[0]);
  }

  // ---- What is set is what a date resolves to ----

  lemma {:induction false} LastSettingIsTheRow(rows: map<int, CalendarRow>, days: seq<DaySetting>, i: nat)
    requires i < |days| && forall j | i < j < |days| :: days[j].dayOfWeek != days[i].dayOfWeek
    ensures days[i].dayOfWeek in SetRows(rows, days) && SetRows(rows, days)[days[i].dayOfWeek] == days[i].Row()
    decreases |days|
  {
    if i < |days| - 1 {
      LastSettingIsTheRow(rows, days[..|days| - 1], i);
    }
  }

  lemma {:induction false} OtherRowsStay(rows: map<int, CalendarRow>, days: seq<DaySetting>, k: int)
    requires forall i | 0 <= i < |days| :: days[i].dayOfWeek != k
    ensures k in SetRows(rows, days) <==> k in rows
    ensures k in rows ==> SetRows(rows, days)[k] == rows[k]
    decreases |days|
  {
    if days != [] {
      OtherRowsStay(rows, days[..|days| - 1], k);
    }
  }

  /**
   * After a calendar is set, every date of a weekday sent resolves to the last setting sent for it: its own
   * type and times, none when it is off, or in the other week of an alternating day the alternate type.
   */
  lemma SetDayIsEffective(rows: map<int, CalendarRow>, days: seq<DaySetting>, hours: seq<BusinessHours>, i: nat, d: Day)
    requires i < |days| && forall j | i < j < |days| :: days[j].dayOfWeek != days[i].dayOfWeek
    requires days[i].Complete() && days[i].dayOfWeek == (d + 4) % 7
    ensures var e, day := ResolveEffectiveDay(Calendar(SetRows(rows, days), hours), d), days[i];
            if day.alternatesBiweekly && ((d - 19723) / 7) % 2 != day.activeWeekParity.value then
              Some(e.dayType) == day.alternateDayType && e.resumeTime.None? && e.closingTime.None?
            else
              && e.dayType == day.dayType
              && (if day.dayType == Off then e.resumeTime.None? && e.closingTime.None?
                  else
                    && e.resumeTime == day.resumeTime && e.closingTime == day.closingTime
                    && e.resumeTime.Some? && e.closingTime.Some?)
  {
    LastSettingIsTheRow(rows, days, i);
    ParityFlips(d);
    hide WeekParityFor;
  }

  /** A setting is complete exactly when its row has both times unless it is off, and alternates if it was to. */
  lemma CompleteIff(day: DaySetting)
    ensures day.Complete()
       <==> (day.dayType == Off || (day.Row().resumeTime.Some? && day.Row().closingTime.Some?))
            && (day.alternatesBiweekly ==> day.Row().Alternates())
  {
  }

  /** A weekday that was not sent resolves as before. */
  lemma UnsetDayStays(rows: map<int, CalendarRow>, days: seq<DaySetting>, hours: seq<BusinessHours>, d: Day)
    requires forall i | 0 <= i < |days| :: days[i].dayOfWeek != (d + 4) % 7
    ensures ResolveEffectiveDay(Calendar(SetRows(rows, days), hours), d)
         == ResolveEffectiveDay(Calendar(rows, hours), d)
  {
    OtherRowsStay(rows, days, DayOfWeek(d));
    hide WeekParityFor;
  }

  /** What the company's hours make of a date: their times if open that weekday, off if closed, open if not known. */
  predicate FollowsCompany(e: EffectiveDay, hours: seq<BusinessHours>, d: Day) {
    if exists i :: 0 <= i < |hours| && hours[i].dayOfWeek == (d + 4) % 7 then
      exists i :: 0 <= i < |hours| && hours[i].dayOfWeek == (d + 4) % 7
        && e.dayType == (if hours[i].isOpen then Working else Off)
        && (hours[i].isOpen ==> e.resumeTime == Some(hours[i].openTime) && e.closingTime == Some(hours[i].closeTime))
    else e.dayType == Working && e.resumeTime.None? && e.closingTime.None?
  }

  lemma {:induction false} HoursForMeaning(hours: seq<BusinessHours>, k: int)
    ensures HoursFor(hours, k).None? <==> forall i | 0 <= i < |hours| :: hours[i].dayOfWeek != k
    ensures HoursFor(hours, k).Some? ==>
              exists i :: 0 <= i < |hours| && hours[i] == HoursFor(hours, k).value && hours[i].dayOfWeek == k
    decreases |hours|
  {
    if hours != [] {
      HoursForMeaning(hours[1..], k);
      assert forall i | 0 < i < |hours| :: hours[i] == hours[1..][i - 1];
      if hours[0].dayOfWeek == k {
        assert hours[0] == HoursFor(hours, k).value;
      } else if HoursFor(hours, k).Some? {
        var i :| 0 <= i < |hours| - 1 && hours[1..][i] == HoursFor(hours[1..], k).value && hours[1..][i].dayOfWeek == k;
        assert hours[i + 1] == HoursFor(hours, k).value;
      }
    }
  }

  /** A date without a row of its own follows the company. */
  lemma MissingDayFollowsCompany(c: Calendar, d: Day)
    requires (d + 4) % 7 !in c.rows
    ensures FollowsCompany(ResolveEffectiveDay(c, d), c.hours, d)
  {
    HoursForMeaning(c.hours, DayOfWeek(d));
  }

  /** Filling in leaves every date that has a row as it was, and lets every other follow the company. */
  lemma FillingInKeepsRows(c: Calendar, d: Day)
    requires OnePerDay(c.hours)
    ensures var e := ResolveEffectiveDay(Calendar(ApplyHours(c.rows, c.hours, c.rows.Keys, false), c.hours), d);
            if (d + 4) % 7 in c.rows then e == ResolveEffectiveDay(c, d) else FollowsCompany(e, c.hours, d)
  {
    AppliedRow(c.rows, c.hours, c.rows.Keys, false, DayOfWeek(d));
    HoursForMeaning(c.hours, DayOfWeek(d));
    hide WeekParityFor;
  }

  /** Overwriting makes a date follow the company in both type and times, but for the alternate week of an old row. */
  lemma OverwritingFollowsCompany(c: Calendar, d: Day, i: nat)
    requires OnePerDay(c.hours) && i < |c.hours| && c.hours[i].dayOfWeek == (d + 4) % 7
    ensures var e := ResolveEffectiveDay(Calendar(ApplyHours(c.rows, c.hours, c.rows.Keys, true), c.hours), d);
            var k := (d + 4) % 7;
            if k in c.rows && c.rows[k].Alternates() && ((d - 19723) / 7) % 2 != c.rows[k].activeWeekParity.value then
              e.dayType == c.rows[k].alternateDayType.value && e.resumeTime.None? && e.closingTime.None?
            else FollowsCompany(e, c.hours, d)
  {
    AppliedRow(c.rows, c.hours, c.rows.Keys, true, DayOfWeek(d));
    ParityFlips(d);
    hide WeekParityFor;
  }
}

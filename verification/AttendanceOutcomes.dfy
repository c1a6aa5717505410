/** What each attendance and leave operation answers and writes, told from configuration and clock. */
module AttendanceOutcomes {
  import opened Base
  import opened WatTime
  import opened WorkCalendar
  import AS = AttendanceSummary
  import opened Attendance
  import opened AttendanceRuns
  import opened AttendanceCharges

  predicate ClosedOn(cfg: Config, staff: Id, d: Day) {
    (staff, d) in cfg.exceptions && cfg.exceptions[(staff, d)].isClosed
  }

  predicate HasException(cfg: Config, staff: Id, d: Day) { (staff, d) in cfg.exceptions }

  /** The instant is the given minute of the WAT day. */
  predicate AtMinute(d: Day, minutes: int, t: int) { t == d * 86400000 + minutes * 60000 - 3600000 }

  /** The minute the day opens: the exception's if it names one, else the calendar's. */
  predicate OpensAt(cfg: Config, staff: Id, d: Day, m: TimeOfDay)
    requires staff in cfg.staff
  {
    if HasException(cfg, staff, d) && cfg.exceptions[(staff, d)].openTime.Some? then
      cfg.exceptions[(staff, d)].openTime == Some(m)
    else ResolveEffectiveDay(cfg.staff[staff].calendar, d).resumeTime == Some(m)
  }

  predicate ClosesAt(cfg: Config, staff: Id, d: Day, m: TimeOfDay)
    requires staff in cfg.staff
  {
    if HasException(cfg, staff, d) && cfg.exceptions[(staff, d)].closeTime.Some? then
      cfg.exceptions[(staff, d)].closeTime == Some(m)
    else ResolveEffectiveDay(cfg.staff[staff].calendar, d).closingTime == Some(m)
  }

  /** Work is scheduled: an exception that is not a closure, or a day the calendar does not have off. */
  predicate ScheduledOn(cfg: Config, staff: Id, d: Day)
    requires staff in cfg.staff
  {
    if HasException(cfg, staff, d) then !ClosedOn(cfg, staff, d)
    else ResolveEffectiveDay(cfg.staff[staff].calendar, d).dayType != Off
  }

  /** The deadline is the opening minute plus the grace minutes, on scheduled days that open at all. */
  lemma DeadlineMeaning(cfg: Config, staff: Id, d: Day, m: TimeOfDay, t: int)
    requires staff in cfg.staff && OpensAt(cfg, staff, d, m) && AtMinute(d, m + cfg.staff[staff].graceMinutes, t)
    ensures Deadline(cfg, staff, d) == if ScheduledOn(cfg, staff, d) then Some(t) else None
  {
  }

  /** A check-in is scored by the kind of day: a closure, a day off, or a scheduled day on which it is late or not. */
  lemma ArrivalStatus(cfg: Config, leaves: seq<Leave>, staff: Id, d: Day, at: int)
    requires staff in cfg.staff
    ensures var status := ComputeAttendanceOutcome(cfg, leaves, staff, d, at).status;
            && (status == AS.PublicHoliday <==> ClosedOn(cfg, staff, d))
            && (status == AS.ExtraWorkDayPending <==> !ClosedOn(cfg, staff, d) && !ScheduledOn(cfg, staff, d))
            && (status == AS.Late ==> ScheduledOn(cfg, staff, d))
            && status in {AS.PublicHoliday, AS.ExtraWorkDayPending, AS.Late, AS.Present}
  {
  }

  /** A clock-in is taken exactly once a day, on site, from known staff; its record holds the instant and its score. */
  lemma ClockInTakenIff(cfg: Config, s: State, staff: Id, now: int, onSite: bool, d: Day)
    requires d * 86400000 <= now + 3600000 < (d + 1) * 86400000
    ensures var r := ClockInSpec(cfg, s, staff, now, onSite);
            && (r.Ok? <==> staff in cfg.staff && onSite && (staff, d) !in s.records)
            && (r == Err(NotFound) <==> staff !in cfg.staff)
            && (r.Ok? ==>
                  var o := ComputeAttendanceOutcome(cfg, s.leaves, staff, d, now);
                  && r.value.leaves == s.leaves && (staff, d) in r.value.records
                  && r.value.records == s.records[(staff, d) := r.value.records[(staff, d)]]
                  && var rec := r.value.records[(staff, d)];
                     && rec.checkInAt == Some(now) && rec.checkOutAt.None? && rec.status == o.status
                     && rec.lateMinutes == o.lateMinutes && rec.latePenalty == o.latePenalty
                     && rec.absentFee.None? && rec.overtimeMinutes.None? && rec.earlyDepartureMinutes.None?)
  {
    WatDayBounds(now, d);
    hide ComputeAttendanceOutcome, ToWatDay;
  }

  // ---- Leaving ----

  /** Closing time is in force for this record, and is this instant. */
  predicate EndsAt(cfg: Config, r: Record, staff: Id, d: Day, end: int) {
    && staff in cfg.staff && r.status != AS.ExtraWorkDayPending && ScheduledOn(cfg, staff, d)
    && exists m: TimeOfDay :: ClosesAt(cfg, staff, d, m) && AtMinute(d, m, end)
  }

  /** An approved early-departure permission for the day that has begun, or has no start time. */
  predicate Excused(leaves: seq<Leave>, staff: Id, d: Day, now: int) {
    exists i :: 0 <= i < |leaves| && leaves[i].staff == staff && leaves[i].kind == EarlyDeparture
      && leaves[i].status == Approved && leaves[i].start <= d <= leaves[i].end
      && (leaves[i].startTime.Some? ==> d * 86400000 + leaves[i].startTime.value * 60000 - 3600000 <= now)
  }

  lemma EndsAtIff(cfg: Config, r: Record, staff: Id, d: Day, end: int)
    requires staff in cfg.staff
    ensures EndsAt(cfg, r, staff, d, end)
       <==> r.status != AS.ExtraWorkDayPending && ScheduledEnd(cfg, staff, d) == Some(end)
  {
    var e := ScheduledEnd(cfg, staff, d);
    if r.status != AS.ExtraWorkDayPending && e == Some(end) {
      var exception := ExceptionOn(cfg, staff, d);
      var m := if exception.Some? && exception.value.closeTime.Some? then exception.value.closeTime.value
               else ResolveEffectiveDay(cfg.staff[staff].calendar, d).closingTime.value;
      assert ClosesAt(cfg, staff, d, m) && AtMinute(d, m, end);
    }
  }

  /** Minutes are the whole minutes nearest to a length of time. */
  predicate Nearest(minutes: int, ms: int) { -30000 <= minutes * 60000 - ms <= 30000 }

  /**
   * A check-out is taken exactly once, on site, on a day checked in to, until 22:00 WAT, and before closing
   * time only when excused; it writes the instant and the minutes of overtime or of early departure.
   */
  lemma ClockOutTakenIff(cfg: Config, s: State, staff: Id, now: int, onSite: bool, d: Day)
    requires d * 86400000 <= now + 3600000 < (d + 1) * 86400000
    ensures var r := ClockOutSpec(cfg, s, staff, now, onSite);
            && (r.Ok? <==>
                  && staff in cfg.staff && (staff, d) in s.records && s.records[(staff, d)].checkOutAt.None? && onSite
                  && now <= d * 86400000 + 21 * 3600000
                  && ((exists end :: EndsAt(cfg, s.records[(staff, d)], staff, d, end) && now < end)
                      ==> Excused(s.leaves, staff, d, now)))
            && (r.Ok? ==>
                  && r.value.leaves == s.leaves && (staff, d) in r.value.records
                  && r.value.records == s.records[(staff, d) := r.value.records[(staff, d)]]
                  && LeftAt(cfg, s.records[(staff, d)], r.value.records[(staff, d)], staff, d, now))
  {
    WatDayBounds(now, d);
    hide ToWatDay, ResolveEffectiveDay;
    if staff in cfg.staff && (staff, d) in s.records {
      var rec := s.records[(staff, d)];
      forall end ensures EndsAt(cfg, rec, staff, d, end)
                    <==> rec.status != AS.ExtraWorkDayPending && ScheduledEnd(cfg, staff, d) == Some(end) {
        EndsAtIff(cfg, rec, staff, d, end);
      }
      ExcusedIff(s.leaves, staff, d, now);
      var end := ScheduledEnd(cfg, staff, d);
      if end.Some? {
        RoundedNear(end.value - now);
        RoundedNear(now - end.value);
      }
      hide EndsAt, ScheduledEnd, MayLeaveEarly, Excused, RoundedMinutes;
    }
  }

  lemma ExcusedIff(leaves: seq<Leave>, staff: Id, d: Day, now: int)
    ensures Excused(leaves, staff, d, now) <==> MayLeaveEarly(leaves, staff, d, now)
  {
    if Excused(leaves, staff, d, now) {
      var i :| 0 <= i < |leaves| && leaves[i].staff == staff && leaves[i].kind == EarlyDeparture
        && leaves[i].status == Approved && leaves[i].start <= d <= leaves[i].end
        && (leaves[i].startTime.Some? ==> d * 86400000 + leaves[i].startTime.value * 60000 - 3600000 <= now);
      assert IsPermission(leaves[i], staff, EarlyDeparture, d);
    }
    if MayLeaveEarly(leaves, staff, d, now) {
      var i :| 0 <= i < |leaves| && IsPermission(leaves[i], staff, EarlyDeparture, d)
        && (leaves[i].startTime.Some? ==> WatDateAtTime(d, leaves[i].startTime.value) <= now);
      assert leaves[i].kind == EarlyDeparture;
    }
  }

  ghost predicate LeftAt(cfg: Config, r: Record, r2: Record, staff: Id, d: Day, now: int) {
    && r2.checkOutAt == Some(now)
    && r2.(checkOutAt := r.checkOutAt, overtimeMinutes := r.overtimeMinutes,
           earlyDepartureMinutes := r.earlyDepartureMinutes) == r
    && (r2.earlyDepartureMinutes.Some? <==> exists end :: EndsAt(cfg, r, staff, d, end) && now < end)
    && (r2.overtimeMinutes.Some? <==> exists end :: EndsAt(cfg, r, staff, d, end) && now > end)
    && (forall end | EndsAt(cfg, r, staff, d, end) ::
          && (r2.earlyDepartureMinutes.Some? ==> Nearest(r2.earlyDepartureMinutes.value, end - now))
          && (r2.overtimeMinutes.Some? ==> Nearest(r2.overtimeMinutes.value, now - end)))
  }

  // ---- Leave requests ----

  /**
   * A leave request is taken exactly from known staff, with its dates in order, and sharing no day with an
   * open request of theirs; it is put behind the others, PENDING.
   */
  lemma RequestTakenIff(cfg: Config, s: State, staff: Id, kind: LeaveType, start: Day, end: Day, t: Option<TimeOfDay>)
    requires forall i | 0 <= i < |s.leaves| :: s.leaves[i].start <= s.leaves[i].end
    ensures var r := SubmitSpec(cfg, s, staff, kind, start, end, t);
            && (r.Ok? <==>
                  && staff in cfg.staff && start <= end
                  && !(exists i, d: Day :: 0 <= i < |s.leaves| && SharesDay(s.leaves[i], staff, start, end, d)))
            && (r.Ok? ==> r.value == s.(leaves := s.leaves + [Leave(staff, kind, start, end, t, Pending, false)]))
  {
    if i :| 0 <= i < |s.leaves| && s.leaves[i].staff == staff && s.leaves[i].Open()
            && s.leaves[i].start <= end && start <= s.leaves[i].end {
      if start <= end {
        var d := if start <= s.leaves[i].start then s.leaves[i].start else start;
        assert SharesDay(s.leaves[i], staff, start, end, d);
      }
    }
  }

  predicate SharesDay(l: Leave, staff: Id, start: Day, end: Day, d: Day) {
    l.staff == staff && l.status != Rejected && start <= d <= end && l.start <= d <= l.end
  }

  /** A rejected request frees its days: the same days can be asked for again. */
  lemma RejectedFreesItsDays(cfg: Config, s: State, id: Id)
    requires Invariant(cfg, s) && id < |s.leaves| && s.leaves[id].status == Pending && s.leaves[id].staff in cfg.staff
    ensures var r, l := RejectLeaveSpec(s, id), s.leaves[id];
            && r.Ok? && r.value.records == s.records && r.value.leaves == s.leaves[id := l.(status := Rejected)]
            && SubmitSpec(cfg, r.value, l.staff, l.kind, l.start, l.end, l.startTime).Ok?
  {
    var s2, l := RejectLeaveSpec(s, id).value, s.leaves[id];
    forall i | 0 <= i < |s2.leaves|
      ensures !(s2.leaves[i].staff == l.staff && s2.leaves[i].Open()
                && s2.leaves[i].start <= l.end && l.start <= s2.leaves[i].end)
    {
      if i != id {
        assert i < id ==> !Clash(s.leaves[i], l);
        assert id < i ==> !Clash(l, s.leaves[i]);
      }
    }
  }

  /**
   * An approval carried through leaves each day of a day-type leave ON_LEAVE: an existing record keeps all
   * but its status, a new one is checked in at midnight UTC and charged nothing; no other record changes.
   */
  lemma ApprovedDays(cfg: Config, s: State, id: Id, staff: Id, d: Day)
    requires id < |s.leaves| && s.leaves[id].status == Pending
    ensures var l := s.leaves[id];
            var r := ApproveLeaveSpec(cfg, s, id, LeaveLength(l));
            && r.Ok? && r.value.leaves == s.leaves[id := l.(status := Approved, applied := true)]
            && (if staff == l.staff && staff in cfg.staff && l.kind in {AnnualLeave, SickLeave, CasualLeave, DayOff}
                   && l.start <= d <= l.end then
                  && (staff, d) in r.value.records && r.value.records[(staff, d)].status == AS.OnLeave
                  && (if (staff, d) in s.records then
                        r.value.records[(staff, d)].(status := s.records[(staff, d)].status) == s.records[(staff, d)]
                      else
                        r.value.records[(staff, d)]
                        == Record(Some(d * 86400000), None, AS.OnLeave, None, None, None, None, None))
                else Lookup(r.value.records, staff, d) == Lookup(s.records, staff, d))
  {
    var l := s.leaves[id];
    var total := if IsDayType(l.kind) && l.staff in cfg.staff then LeaveLength(l) else 0;
    LeaveRecordsMeaning(s.records, l.staff, l.start, total, (staff, d));
    hide LeaveRecords;
  }

  // ---- The nightly job ----

  /** After the job no visited record of the day is still open, and a day that should have been worked has one. */
  lemma NightlySettles(cfg: Config, s: State, active: seq<Id>, d: Day, staff: Id)
    requires staff in active && staff in cfg.staff
    ensures var r := Lookup(NightlySpec(cfg, s, active, d).records, staff, d);
            && (r.Some? ==> !NeverCheckedOut(r.value))
            && (r.None? ==> !ScheduledByCalendar(cfg, staff, d) || ClosedOn(cfg, staff, d)
                            || OnApprovedLeave(s.leaves, staff, d))
            && (Lookup(s.records, staff, d).None? && r.Some? ==>
                  r.value == Record(None, None, AS.Absent, None, None, r.value.absentFee, None, None))
            && (Lookup(s.records, staff, d).Some? ==>
                  && r.Some?
                  && (if NeverCheckedOut(s.records[(staff, d)]) then
                        && r.value.status == AS.Absent
                        && r.value.(status := s.records[(staff, d)].status,
                                    absentFee := s.records[(staff, d)].absentFee) == s.records[(staff, d)]
                      else r.value == s.records[(staff, d)]))
  {
    NightlyIsPointwise(cfg, s, active, d, staff, d);
    hide NightlySpec, AbsentFee, OnApprovedLeave;
  }

  predicate ScheduledByCalendar(cfg: Config, staff: Id, d: Day)
    requires staff in cfg.staff
  {
    ResolveEffectiveDay(cfg.staff[staff].calendar, d).dayType != Off
  }

  // ---- How much a charge is ----

  /** The calendar's minutes of the day at the penalty rate. */
  predicate RightFee(cfg: Config, staff: Id, d: Day, fee: int) {
    && FeeConfigured(cfg, staff, d)
    && var day := ResolveEffectiveDay(cfg.staff[staff].calendar, d);
       fee == (day.closingTime.value as int - day.resumeTime.value as int) * cfg.penalty.value.amountPerMinute
  }

  /** A positive number of minutes at the penalty rate, the nearest to the time past the grace deadline. */
  predicate RightPenalty(cfg: Config, staff: Id, d: Day, checkInAt: int, penalty: int, minutes: int) {
    && PenaltyActive(cfg) && staff in cfg.staff && Deadline(cfg, staff, d).Some?
    && minutes > 0 && Nearest(minutes, checkInAt - Deadline(cfg, staff, d).value)
    && penalty == minutes * cfg.penalty.value.amountPerMinute
  }

  ghost predicate ChargesRight(cfg: Config, staff: Id, d: Day, r: Option<Record>) {
    r.Some? ==>
      && (r.value.absentFee.Some? ==> RightFee(cfg, staff, d, r.value.absentFee.value))
      && (r.value.latePenalty.Some? ==>
            && r.value.checkInAt.Some?
            && exists n :: RightPenalty(cfg, staff, d, r.value.checkInAt.value, r.value.latePenalty.value, n))
  }

  lemma FeeIsRight(cfg: Config, staff: Id, d: Day)
    requires staff in cfg.staff && AbsentFee(cfg, staff, d).Some?
    ensures RightFee(cfg, staff, d, AbsentFee(cfg, staff, d).value)
  {
  }

  lemma PenaltyIsRight(cfg: Config, leaves: seq<Leave>, staff: Id, d: Day, at: int) returns (n: int)
    requires staff in cfg.staff && ComputeAttendanceOutcome(cfg, leaves, staff, d, at).latePenalty.Some?
    ensures RightPenalty(cfg, staff, d, at, ComputeAttendanceOutcome(cfg, leaves, staff, d, at).latePenalty.value, n)
  {
    OnlyLateIsPenalized(cfg, leaves, staff, d, at);
    PenaltyIff(cfg, leaves, staff, d, at);
    LateMinutesAreRounded(cfg, leaves, staff, d, at);
    PenalizedWithinHalfAMinute(cfg, leaves, staff, d, at);
    n := Penalized(cfg, leaves, staff, d, at);
    hide ComputeAttendanceOutcome, RoundedMinutes, Deadline;
  }

  lemma StepKeepsChargesRight(cfg: Config, s: State, c: Call, staff: Id, d: Day)
    requires ChargesRight(cfg, staff, d, Lookup(s.records, staff, d))
    ensures ChargesRight(cfg, staff, d, Lookup(Step(cfg, s, c).records, staff, d))
  {
    match c {
      case ClockIn(_, _, _) => ClockInChargesRight(cfg, s, c, staff, d);
      case ClockOut(_, _, _) => ClockOutChargesRight(cfg, s, c, staff, d);
      case Nightly(active, now) => NightlyChargesRight(cfg, s, c, staff, d);
      case Approve(_, _) => ApproveChargesRight(cfg, s, c, staff, d);
      case Submit(_, _, _, _, _) =>
      case Reject(_) =>
    }
    hide *;
  }

  lemma ClockInChargesRight(cfg: Config, s: State, c: Call, staff: Id, d: Day)
    requires c.ClockIn? && ChargesRight(cfg, staff, d, Lookup(s.records, staff, d))
    ensures ChargesRight(cfg, staff, d, Lookup(Step(cfg, s, c).records, staff, d))
  {
    var today := ToWatDay(c.now);
    if c.staff in cfg.staff && ComputeAttendanceOutcome(cfg, s.leaves, c.staff, today, c.now).latePenalty.Some? {
      var n := PenaltyIsRight(cfg, s.leaves, c.staff, ToWatDay(c.now), c.now);
    }
    hide ComputeAttendanceOutcome, RightPenalty, RightFee, ToWatDay;
  }

  lemma ClockOutChargesRight(cfg: Config, s: State, c: Call, staff: Id, d: Day)
    requires c.ClockOut? && ChargesRight(cfg, staff, d, Lookup(s.records, staff, d))
    ensures ChargesRight(cfg, staff, d, Lookup(Step(cfg, s, c).records, staff, d))
  {
    hide ScheduledEnd, MayLeaveEarly, RoundedMinutes, ToWatDay, WatDateAtTime, RightPenalty, RightFee;
  }

  lemma NightlyChargesRight(cfg: Config, s: State, c: Call, staff: Id, d: Day)
    requires c.Nightly? && ChargesRight(cfg, staff, d, Lookup(s.records, staff, d))
    ensures ChargesRight(cfg, staff, d, Lookup(Step(cfg, s, c).records, staff, d))
  {
    NightlyIsPointwise(cfg, s, c.active, ToWatDay(c.now - DAY_MS), staff, d);
    if staff in cfg.staff && AbsentFee(cfg, staff, d).Some? {
      FeeIsRight(cfg, staff, d);
    }
    hide AbsentFee, ToWatDay, NightlySpec, ResolveEffectiveDay, OnApprovedLeave, RightPenalty, RightFee;
  }

  lemma ApproveChargesRight(cfg: Config, s: State, c: Call, staff: Id, d: Day)
    requires c.Approve? && ChargesRight(cfg, staff, d, Lookup(s.records, staff, d))
    ensures ChargesRight(cfg, staff, d, Lookup(Step(cfg, s, c).records, staff, d))
  {
    hide LeaveRecords, RightPenalty, RightFee;
    if ApproveLeaveSpec(cfg, s, c.id, c.days).Ok? {
      var l := s.leaves[c.id];
      var total := if IsDayType(l.kind) && l.staff in cfg.staff then LeaveLength(l) else 0;
      var written := if c.days < total then c.days else total;
      LeaveRecordsMeaning(s.records, l.staff, l.start, written, (staff, d));
    }
  }

  lemma {:induction false} ChargesRightFrom(cfg: Config, s: State, calls: seq<Call>, staff: Id, d: Day)
    requires ChargesRight(cfg, staff, d, Lookup(s.records, staff, d))
    ensures ChargesRight(cfg, staff, d, Lookup(Run(cfg, s, calls).records, staff, d))
    decreases |calls|
  {
    if calls != [] {
      StepKeepsChargesRight(cfg, s, calls[0], staff, d);
      hide Step, ChargesRight, Lookup;
      ChargesRightFrom(cfg, Step(cfg, s, calls[0]), calls[1..], staff, d);
    }
  }

  /**
   * In every run a day's absent fee is its scheduled minutes at the penalty rate, and its late penalty the
   * minutes past the grace deadline, to the nearest one, at that rate.
   */
  lemma ChargesAreRight(cfg: Config, calls: seq<Call>, staff: Id, d: Day)
    ensures ChargesRight(cfg, staff, d, Lookup(Run(cfg, EMPTY, calls).records, staff, d))
  {
    ChargesRightFrom(cfg, EMPTY, calls, staff, d);
  }

  // ---- Corrections ----

  /**
   * A correction writes the times it names and keeps the others; a status it names stands; the day is charged
   * as absent exactly when it is then ABSENT and priced, and late minutes stand only on a late or absent day.
   */
  lemma CorrectedRecord(cfg: Config, leaves: seq<Leave>, staff: Id, d: Day, r: Record, c: Correction)
    requires staff in cfg.staff
    ensures var after := CorrectRecord(cfg, leaves, staff, d, r, c);
            && after.checkInAt == (if c.checkInAt.Some? then c.checkInAt else r.checkInAt)
            && after.checkOutAt == (if c.checkOutAt.Some? then c.checkOutAt else r.checkOutAt)
            && after.overtimeMinutes == r.overtimeMinutes && after.earlyDepartureMinutes == r.earlyDepartureMinutes
            && (c.status.Some? ==> after.status == c.status.value)
            && (c.status.None? && r.status == AS.Absent ==> after.status == AS.Absent)
            && (c.status.None? && r.status != AS.Absent && after.checkInAt.Some? ==>
                  var o := ComputeAttendanceOutcome(cfg, leaves, staff, d, after.checkInAt.value);
                  after.status == o.status && after.lateMinutes == o.lateMinutes && after.latePenalty == o.latePenalty)
            && (after.absentFee.Some? <==> after.status == AS.Absent && FeeConfigured(cfg, staff, d))
            && (after.absentFee.Some? ==> RightFee(cfg, staff, d, after.absentFee.value))
            && (c.status == Some(AS.Late) && after.checkInAt.Some? ==>
                  var o := ComputeAttendanceOutcome(cfg, leaves, staff, d, after.checkInAt.value);
                  after.lateMinutes == o.lateMinutes && after.latePenalty == o.latePenalty)
            && (c.status.Some? && c.status != Some(AS.Late) ==> after.lateMinutes.None? && after.latePenalty.None?)
            && ((c.status.None? && (r.status == AS.Absent || after.checkInAt.None?))
                || (c.status == Some(AS.Late) && after.checkInAt.None?) ==>
                  after.lateMinutes == r.lateMinutes && after.latePenalty == r.latePenalty)
  {
    FeeConfiguredMeaning(cfg, staff, d);
    if AbsentFee(cfg, staff, d).Some? {
      FeeIsRight(cfg, staff, d);
    }
    hide ComputeAttendanceOutcome, AbsentFee, FeeConfigured, RightFee;
  }
}

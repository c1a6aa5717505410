/** Clocking in and out, leave requests, and the nightly job that marks absences. */
module Attendance {
  import opened Base
  import opened WatTime
  import opened WorkCalendar
  import AS = AttendanceSummary

  /** A date the company or the branch closes, or opens for other hours. */
  datatype Exception = Exception(isClosed: bool, openTime: Option<TimeOfDay>, closeTime: Option<TimeOfDay>)

  datatype PenaltySettings = PenaltySettings(isActive: bool, amountPerMinute: int)

  datatype StaffMember = StaffMember(calendar: Calendar, graceMinutes: int)

  /** What administrators configure; `exceptions` are already resolved for the staff member's branch. */
  datatype Config = Config(
    staff: map<Id, StaffMember>, exceptions: map<(Id, Day), Exception>, penalty: Option<PenaltySettings>)

  datatype LeaveType = AnnualLeave | SickLeave | CasualLeave | DayOff | LateArrival | EarlyDeparture | Overtime

  predicate IsDayType(t: LeaveType) { t == AnnualLeave || t == SickLeave || t == CasualLeave || t == DayOff }

  datatype LeaveStatus = Pending | Approved | Rejected

  /**
   * `startTime` matters to early-departure permissions. `applied` is a history variable: the
   * approval got as far as writing all of its attendance records.
   */
  datatype Leave = Leave(
    staff: Id, kind: LeaveType, start: Day, end: Day, startTime: Option<TimeOfDay>, status: LeaveStatus, applied: bool)
  {
    predicate Covers(d: Day) { start <= d <= end }

    predicate Open() { status != Rejected }
  }

  datatype Record = Record(
    checkInAt: Option<int>, checkOutAt: Option<int>, status: AS.Status, lateMinutes: Option<int>,
    latePenalty: Option<int>, absentFee: Option<int>, earlyDepartureMinutes: Option<int>, overtimeMinutes: Option<int>)

  /** One record per staff member and day, as the unique key has it. */
  datatype State = State(records: map<(Id, Day), Record>, leaves: seq<Leave>)

  // ---- Scoring a check-in ----

  datatype Outcome = Outcome(status: AS.Status, lateMinutes: Option<int>, latePenalty: Option<int>)

  function ExceptionOn(cfg: Config, staff: Id, d: Day): Option<Exception> {
    if (staff, d) in cfg.exceptions then Some(cfg.exceptions[(staff, d)]) else None
  }

  predicate HasPermission(leaves: seq<Leave>, staff: Id, kind: LeaveType, d: Day) {
    exists i :: 0 <= i < |leaves| && IsPermission(leaves[i], staff, kind, d)
  }

  predicate IsPermission(l: Leave, staff: Id, kind: LeaveType, d: Day) {
    l.staff == staff && l.kind == kind && l.status == Approved && l.Covers(d)
  }

  /** Charged for the rounded minutes beyond the grace period, if the feature is on and any are left. */
  function LatePenalty(cfg: Config, lateMinutes: int, graceMinutes: int): Option<int> {
    if cfg.penalty.None? || !cfg.penalty.value.isActive then None
    else
      var penalized := if lateMinutes - graceMinutes >= 0 then lateMinutes - graceMinutes else 0;
      if penalized == 0 then None else Some(penalized * cfg.penalty.value.amountPerMinute)
  }

  function RoundedMinutes(ms: int): int { Round(ms as real / 60000.0) }

  /** The derivation a correction uses. */
  function ComputeAttendanceOutcome(cfg: Config, leaves: seq<Leave>, staff: Id, d: Day, checkInAt: int): Outcome
    requires staff in cfg.staff
  {
    var exception := ExceptionOn(cfg, staff, d);
    if exception.Some? && exception.value.isClosed then Outcome(AS.PublicHoliday, None, None)
    else
      var effective := ResolveEffectiveDay(cfg.staff[staff].calendar, d);
      var openTime := if exception.Some? && exception.value.openTime.Some? then exception.value.openTime
                      else effective.resumeTime;
      if exception.None? && effective.dayType == Off then Outcome(AS.ExtraWorkDayPending, None, None)
      else if openTime.None? then Outcome(AS.Present, None, None)
      else
        var scheduledStart := WatDateAtTime(d, openTime.value);
        var grace := cfg.staff[staff].graceMinutes;
        if checkInAt > scheduledStart + grace * MINUTE_MS && !HasPermission(leaves, staff, LateArrival, d) then
          var late := RoundedMinutes(checkInAt - scheduledStart);
          Outcome(AS.Late, Some(late), LatePenalty(cfg, late, grace))
        else Outcome(AS.Present, None, None)
  }

  /** A day's scheduled minutes at the penalty rate, if the feature is on and the hours are known. */
  function AbsentFee(cfg: Config, staff: Id, d: Day): Option<int>
    requires staff in cfg.staff
  {
    if cfg.penalty.None? || !cfg.penalty.value.isActive then None
    else
      var effective := ResolveEffectiveDay(cfg.staff[staff].calendar, d);
      if effective.resumeTime.None? || effective.closingTime.None? then None
      else
        var expected := (effective.closingTime.value as int) - (effective.resumeTime.value as int);
        if expected <= 0 then None else Some(expected * cfg.penalty.value.amountPerMinute)
  }

  // ---- Clocking ----

  function NewRecord(checkInAt: Option<int>, o: Outcome): Record {
    Record(checkInAt, None, o.status, o.lateMinutes, o.latePenalty, None, None, None)
  }

  function ClockInSpec(cfg: Config, s: State, staff: Id, now: int, onSite: bool): Result<State> {
    var today := ToWatDay(now);
    if staff !in cfg.staff then Err(NotFound)
    else if (staff, today) in s.records then Err(BadRequest)
    else if !onSite then Err(BadRequest)
    else
      var outcome := ComputeAttendanceOutcome(cfg, s.leaves, staff, today, now);
      Ok(s.(records := s.records[(staff, today) := NewRecord(Some(now), outcome)]))
  }

  const CHECKOUT_CUTOFF: TimeOfDay := 1320

  /** When a check-out before closing time is allowed: under a permission, from its start time on. */
  predicate MayLeaveEarly(leaves: seq<Leave>, staff: Id, d: Day, now: int) {
    exists i :: 0 <= i < |leaves| && IsPermission(leaves[i], staff, EarlyDeparture, d)
      && (leaves[i].startTime.Some? ==> WatDateAtTime(d, leaves[i].startTime.value) <= now)
  }

  /** The closing instant a check-out is measured against, if the day has one. */
  function ScheduledEnd(cfg: Config, staff: Id, d: Day): Option<int>
    requires staff in cfg.staff
  {
    var exception := ExceptionOn(cfg, staff, d);
    var effective := ResolveEffectiveDay(cfg.staff[staff].calendar, d);
    var closeTime := if exception.Some? && exception.value.closeTime.Some? then exception.value.closeTime
                     else effective.closingTime;
    var dayIsOpen := if exception.Some? then !exception.value.isClosed else effective.dayType != Off;
    if dayIsOpen && closeTime.Some? then Some(WatDateAtTime(d, closeTime.value)) else None
  }

  function ClockOutSpec(cfg: Config, s: State, staff: Id, now: int, onSite: bool): Result<State> {
    var today := ToWatDay(now);
    if staff !in cfg.staff || (staff, today) !in s.records then Err(BadRequest)
    else
      var record := s.records[(staff, today)];
      if record.checkOutAt.Some? || now > WatDateAtTime(today, CHECKOUT_CUTOFF) || !onSite then Err(BadRequest)
      else
        var end := if record.status == AS.ExtraWorkDayPending then None else ScheduledEnd(cfg, staff, today);
        if end.Some? && now < end.value && !MayLeaveEarly(s.leaves, staff, today, now) then Err(BadRequest)
        else
          var early := if end.Some? && now < end.value then Some(RoundedMinutes(end.value - now)) else None;
          var overtime := if end.Some? && now > end.value then Some(RoundedMinutes(now - end.value)) else None;
          Ok(s.(records := s.records[(staff, today) :=
            record.(checkOutAt := Some(now), overtimeMinutes := overtime, earlyDepartureMinutes := early)]))
  }

  // ---- The nightly job ----

  predicate OnApprovedLeave(leaves: seq<Leave>, staff: Id, d: Day) {
    exists i :: 0 <= i < |leaves| && leaves[i].staff == staff && IsDayType(leaves[i].kind)
      && leaves[i].status == Approved && leaves[i].Covers(d)
  }

  predicate NeverCheckedOut(r: Record) {
    r.checkInAt.Some? && r.checkOutAt.None? && (r.status == AS.Present || r.status == AS.Late)
  }

  /** What the job makes of one staff member's day: None means no record. */
  function NightlyRule(cfg: Config, leaves: seq<Leave>, staff: Id, d: Day, existing: Option<Record>): Option<Record> {
    if staff !in cfg.staff then existing
    else if existing.Some? then
      if NeverCheckedOut(existing.value) then
        Some(existing.value.(status := AS.Absent, absentFee := AbsentFee(cfg, staff, d)))
      else existing
    else if ResolveEffectiveDay(cfg.staff[staff].calendar, d).dayType == Off then None
    else if ExceptionOn(cfg, staff, d).Some? && ExceptionOn(cfg, staff, d).value.isClosed then None
    else if OnApprovedLeave(leaves, staff, d) then None
    else Some(NewRecord(None, Outcome(AS.Absent, None, None)).(absentFee := AbsentFee(cfg, staff, d)))
  }

  function Lookup(records: map<(Id, Day), Record>, staff: Id, d: Day): Option<Record> {
    if (staff, d) in records then Some(records[(staff, d)]) else None
  }

  function Store(records: map<(Id, Day), Record>, staff: Id, d: Day, r: Option<Record>): map<(Id, Day), Record> {
    if r.Some? then records[(staff, d) := r.value] else records
  }

  /** The loop over the active staff, one after the other. */
  function NightlySpec(cfg: Config, s: State, active: seq<Id>, d: Day): State {
    if active == [] then s
    else
      var before := NightlySpec(cfg, s, active[..|active| - 1], d);
      var staff := active[|active| - 1];
      before.(records := Store(before.records, staff, d,
                               NightlyRule(cfg, s.leaves, staff, d, Lookup(before.records, staff, d))))
  }

  // ---- Leave requests ----

  predicate Overlapping(leaves: seq<Leave>, staff: Id, start: Day, end: Day) {
    exists i :: 0 <= i < |leaves| && leaves[i].staff == staff && leaves[i].Open()
      && leaves[i].start <= end && start <= leaves[i].end
  }

  function SubmitSpec(cfg: Config, s: State, staff: Id, kind: LeaveType, start: Day, end: Day,
                      startTime: Option<TimeOfDay>)
    : Result<State>
  {
    if staff !in cfg.staff then Err(NotFound)
    else if end < start then Err(BadRequest)
    else if Overlapping(s.leaves, staff, start, end) then Err(BadRequest)
    else Ok(s.(leaves := s.leaves + [Leave(staff, kind, start, end, startTime, Pending, false)]))
  }

  /** A leave day's record: a new one checked in at midnight UTC, or the old one with its status changed. */
  function LeaveRecord(existing: Option<Record>, d: Day): Record {
    if existing.Some? then existing.value.(status := AS.OnLeave)
    else NewRecord(Some(d * DAY_MS), Outcome(AS.OnLeave, None, None))
  }

  /** The first n days of a leave written, in order. */
  function LeaveRecords(records: map<(Id, Day), Record>, staff: Id, start: Day, n: nat): map<(Id, Day), Record> {
    if n == 0 then records
    else
      var before := LeaveRecords(records, staff, start, n - 1);
      before[(staff, start + n - 1) := LeaveRecord(Lookup(before, staff, start + n - 1), start + n - 1)]
  }

  /** How many days the leave runs. */
  function LeaveLength(l: Leave): nat { if l.end < l.start then 0 else l.end - l.start + 1 }

  /** Approval first, then one record after another; the process may stop after `days` of them. */
  function ApproveLeaveSpec(cfg: Config, s: State, id: Id, days: nat): Result<State> {
    if id >= |s.leaves| then Err(NotFound)
    else if s.leaves[id].status != Pending then Err(BadRequest)
    else
      var l := s.leaves[id];
      var total := if IsDayType(l.kind) && l.staff in cfg.staff then LeaveLength(l) else 0;
      var written := if days < total then days else total;
      Ok(s.(leaves := s.leaves[id := l.(status := Approved, applied := written == total)],
            records := LeaveRecords(s.records, l.staff, l.start, written)))
  }

  function RejectLeaveSpec(s: State, id: Id): Result<State> {
    if id >= |s.leaves| then Err(NotFound)
    else if s.leaves[id].status != Pending then Err(BadRequest)
    else Ok(s.(leaves := s.leaves[id := s.leaves[id].(status := Rejected)]))
  }

  // ---- The services over one database ----

  class Database {
    var records: map<(Id, Day), Record>
    var leaves: seq<Leave>

    constructor ()
      ensures Tables() == State(map[], [])
    {
      records, leaves := map[], [];
    }

    function Tables(): State
      reads this
    {
      State(records, leaves)
    }
  }

  ghost predicate Committed(spec: Result<State>, before: State, after: State, error: Option<Error>) {
    match spec
    case Ok(s) => after == s && error == None
    case Err(e) => after == before && error == Some(e)
  }

  class AttendanceService {
    const cfg: Config
    const db: Database

    constructor (cfg: Config, db: Database)
      ensures this.cfg == cfg && this.db == db
    {
      this.cfg, this.db := cfg, db;
    }

    method ClockIn(staff: Id, now: int, onSite: bool) returns (error: Option<Error>)
      modifies db
      ensures Committed(ClockInSpec(cfg, old(db.Tables()), staff, now, onSite), old(db.Tables()), db.Tables(), error)
    {
      hide RoundedMinutes, LatePenalty, ResolveEffectiveDay, HasPermission;
      if staff !in cfg.staff {
        return Some(NotFound);
      }
      var today := ToWatDay(now);
      if (staff, today) in db.records || !onSite {
        return Some(BadRequest);
      }
      var exception := ExceptionOn(cfg, staff, today);
      var status, lateMinutes, latePenalty := AS.Present, None, None;
      if exception.Some? && exception.value.isClosed {
        status := AS.PublicHoliday;
      } else {
        var effective := ResolveEffectiveDay(cfg.staff[staff].calendar, today);
        var openTime := effective.resumeTime;
        if exception.Some? && exception.value.openTime.Some? {
          openTime := exception.value.openTime;
        }
        var expected := if exception.Some? then !exception.value.isClosed else effective.dayType != Off;
        if !expected {
          status := AS.ExtraWorkDayPending;
        } else if openTime.Some? {
          var scheduledStart := WatDateAtTime(today, openTime.value);
          var grace := cfg.staff[staff].graceMinutes;
          var graceDeadline := scheduledStart + grace * MINUTE_MS;
          if now > graceDeadline {
            if !HasPermission(db.leaves, staff, LateArrival, today) {
              status := AS.Late;
              lateMinutes := Some(RoundedMinutes(now - scheduledStart));
              latePenalty := LatePenalty(cfg, lateMinutes.value, grace);
            }
          }
        }
      }
      db.records := db.records[(staff, today) :=
        Record(Some(now), None, status, lateMinutes, latePenalty, None, None, None)];
      error := None;
    }

    method ClockOut(staff: Id, now: int, onSite: bool) returns (error: Option<Error>)
      modifies db
      ensures Committed(ClockOutSpec(cfg, old(db.Tables()), staff, now, onSite), old(db.Tables()), db.Tables(), error)
    {
      hide RoundedMinutes, ResolveEffectiveDay, MayLeaveEarly, ScheduledEnd;
      var today := ToWatDay(now);
      if staff !in cfg.staff || (staff, today) !in db.records {
        return Some(BadRequest);
      }
      var record := db.records[(staff, today)];
      if record.checkOutAt.Some? || now > WatDateAtTime(today, CHECKOUT_CUTOFF) || !onSite {
        return Some(BadRequest);
      }
      var overtime, early := None, None;
      if record.status != AS.ExtraWorkDayPending {
        var end := ScheduledEnd(cfg, staff, today);
        if end.Some? {
          if now < end.value {
            if !MayLeaveEarly(db.leaves, staff, today, now) {
              return Some(BadRequest);
            }
            early := Some(RoundedMinutes(end.value - now));
          } else if now > end.value {
            overtime := Some(RoundedMinutes(now - end.value));
          }
        }
      }
      db.records := db.records[(staff, today) :=
        record.(checkOutAt := Some(now), overtimeMinutes := overtime, earlyDepartureMinutes := early)];
      error := None;
    }

    method MarkAbsencesForYesterday(active: seq<Id>, now: int)
      modifies db
      ensures db.Tables() == NightlySpec(cfg, old(db.Tables()), active, ToWatDay(now - DAY_MS))
    {
      hide AbsentFee, ResolveEffectiveDay, OnApprovedLeave;
      var yesterday := ToWatDay(now - DAY_MS);
      ghost var s := db.Tables();
      for i := 0 to |active|
        invariant db.Tables() == NightlySpec(cfg, s, active[..i], yesterday) && db.leaves == s.leaves
      {
        assert active[..i + 1][..i] == active[..i];
        var staff := active[i];
        if staff !in cfg.staff {
          continue;
        }
        if (staff, yesterday) in db.records {
          var existing := db.records[(staff, yesterday)];
          if existing.checkInAt.Some? && existing.checkOutAt.None?
             && (existing.status == AS.Present || existing.status == AS.Late) {
            var fee := AbsentFee(cfg, staff, yesterday);
            db.records := db.records[(staff, yesterday) := existing.(status := AS.Absent, absentFee := fee)];
          }
          assert db.records[(staff, yesterday) := db.records[(staff, yesterday)]] == db.records;
          continue;
        }
        if ResolveEffectiveDay(cfg.staff[staff].calendar, yesterday).dayType == Off {
          continue;
        }
        var exception := ExceptionOn(cfg, staff, yesterday);
        if exception.Some? && exception.value.isClosed {
          continue;
        }
        if OnApprovedLeave(db.leaves, staff, yesterday) {
          continue;
        }
        var fee := AbsentFee(cfg, staff, yesterday);
        db.records := db.records[(staff, yesterday) := Record(None, None, AS.Absent, None, None, fee, None, None)];
      }
      assert active[..|active|] == active;
    }
  }

  class LeaveService {
    const cfg: Config
    const db: Database

    constructor (cfg: Config, db: Database)
      ensures this.cfg == cfg && this.db == db
    {
      this.cfg, this.db := cfg, db;
    }

    method Submit(staff: Id, kind: LeaveType, start: Day, end: Day, startTime: Option<TimeOfDay>)
      returns (error: Option<Error>)
      modifies db
      ensures Committed(SubmitSpec(cfg, old(db.Tables()), staff, kind, start, end, startTime), old(db.Tables()),
                        db.Tables(), error)
    {
      if staff !in cfg.staff {
        return Some(NotFound);
      }
      if end < start {
        return Some(BadRequest);
      }
      var i := 0;
      while i < |db.leaves|
        invariant 0 <= i <= |db.leaves|
        invariant forall j | 0 <= j < i :: !(db.leaves[j].staff == staff && db.leaves[j].Open()
                                             && db.leaves[j].start <= end && start <= db.leaves[j].end)
      {
        var l := db.leaves[i];
        if l.staff == staff && l.Open() && l.start <= end && start <= l.end {
          return Some(BadRequest);
        }
        i := i + 1;
      }
      db.leaves := db.leaves + [Leave(staff, kind, start, end, startTime, Pending, false)];
      error := None;
    }

    method Approve(id: Id) returns (error: Option<Error>)
      modifies db
      ensures id < |old(db.leaves)| ==>
                Committed(ApproveLeaveSpec(cfg, old(db.Tables()), id, LeaveLength(old(db.leaves)[id])),
                          old(db.Tables()), db.Tables(), error)
      ensures id >= |old(db.leaves)| ==> error == Some(NotFound) && db.Tables() == old(db.Tables())
    {
      if id >= |db.leaves| {
        return Some(NotFound);
      }
      var l := db.leaves[id];
      if l.status != Pending {
        return Some(BadRequest);
      }
      db.leaves := db.leaves[id := l.(status := Approved, applied := true)];
      if IsDayType(l.kind) {
        CreateAttendanceRecordsForLeave(l);
      }
      error := None;
    }

    /** The cursor loop over the leave's days, and the loop that writes a record for each. */
    method CreateAttendanceRecordsForLeave(l: Leave)
      modifies db
      ensures db.leaves == old(db.leaves)
      ensures db.records == if l.staff in cfg.staff then LeaveRecords(old(db.records), l.staff, l.start, LeaveLength(l))
                            else old(db.records)
    {
      if l.staff !in cfg.staff {
        return;
      }
      var dates: seq<Day> := [];
      var cursor := l.start;
      while cursor <= l.end
        invariant l.start <= cursor && (cursor <= l.end + 1 || cursor == l.start)
        invariant |dates| == cursor - l.start && forall i | 0 <= i < |dates| :: dates[i] == l.start + i
      {
        dates := dates + [cursor];
        cursor := cursor + 1;
      }
      ghost var records := db.records;
      for i := 0 to |dates|
        invariant db.leaves == old(db.leaves)
        invariant db.records == LeaveRecords(records, l.staff, l.start, i)
      {
        var key := (l.staff, dates[i]);
        if key in db.records {
          db.records := db.records[key := db.records[key].(status := AS.OnLeave)];
        } else {
          db.records := db.records[key :=
            Record(Some(dates[i] * DAY_MS), None, AS.OnLeave, None, None, None, None, None)];
        }
      }
    }

    method Reject(id: Id) returns (error: Option<Error>)
      modifies db
      ensures Committed(RejectLeaveSpec(old(db.Tables()), id), old(db.Tables()), db.Tables(), error)
    {
      if id >= |db.leaves| {
        return Some(NotFound);
      }
      if db.leaves[id].status != Pending {
        return Some(BadRequest);
      }
      db.leaves := db.leaves[id := db.leaves[id].(status := Rejected)];
      error := None;
    }
  }

  // ---- Manual corrections ----

  datatype Correction = Correction(status: Option<AS.Status>, checkInAt: Option<int>, checkOutAt: Option<int>)

  /** The record a correction leaves behind. */
  function CorrectRecord(cfg: Config, leaves: seq<Leave>, staff: Id, d: Day, r: Record, c: Correction): Record
    requires staff in cfg.staff
  {
    var checkIn := if c.checkInAt.Some? then c.checkInAt else r.checkInAt;
    var asked := if c.status.Some? then c.status.value else r.status;
    var scored := if checkIn.Some? then ComputeAttendanceOutcome(cfg, leaves, staff, d, checkIn.value)
                  else Outcome(asked, None, None);
    var o := if asked != AS.Absent && checkIn.Some? then
               if c.status.None? then scored
               else if asked == AS.Late then Outcome(asked, scored.lateMinutes, scored.latePenalty)
               else Outcome(asked, None, None)
             else if c.status.Some? && asked != AS.Late then Outcome(asked, None, None)
             else Outcome(asked, r.lateMinutes, r.latePenalty);
    r.(checkInAt := checkIn, checkOutAt := if c.checkOutAt.Some? then c.checkOutAt else r.checkOutAt,
       status := o.status, lateMinutes := o.lateMinutes, latePenalty := o.latePenalty,
       absentFee := if o.status == AS.Absent then AbsentFee(cfg, staff, d) else None)
  }
}

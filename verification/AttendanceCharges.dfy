/** What a run of clocking, leave and nightly jobs leaves on a day: its charges, and how the summary counts it. */
module AttendanceCharges {
  import opened Base
  import opened WatTime
  import opened WorkCalendar
  import AS = AttendanceSummary
  import opened Attendance
  import opened AttendanceRuns

  // ---- What is left on a record, and which call leaves it ----

  /** What a day's record can carry for good. */
  datatype Mark = Penalty | Fee | NoShow | Excusal

  predicate Carries(m: Mark, r: Option<Record>) {
    r.Some? && match m
               case Penalty => r.value.latePenalty.Some?
               case Fee => r.value.absentFee.Some?
               case NoShow => r.value.checkInAt.None?
               case Excusal => r.value.status == AS.OnLeave
  }

  predicate PenaltyActive(cfg: Config) { cfg.penalty.Some? && cfg.penalty.value.isActive }

  /** An absence on the day is charged: the feature is on and the calendar's own hours are known and not empty. */
  predicate FeeConfigured(cfg: Config, staff: Id, d: Day) {
    && PenaltyActive(cfg) && staff in cfg.staff
    && var day := ResolveEffectiveDay(cfg.staff[staff].calendar, d);
       day.resumeTime.Some? && day.closingTime.Some? && day.resumeTime.value < day.closingTime.value
  }

  /** The nightly job reaches this staff member's day. */
  predicate Visits(cfg: Config, c: Call, staff: Id, d: Day) {
    c.Nightly? && staff in c.active && staff in cfg.staff && ToWatDay(c.now - DAY_MS) == d
  }

  /** The job finds a record that was checked in to, never out of, and not settled otherwise. */
  predicate LeftOpen(cfg: Config, s: State, c: Call, staff: Id, d: Day) {
    Visits(cfg, c, staff, d) && (staff, d) in s.records && NeverCheckedOut(s.records[(staff, d)])
  }

  /** The job finds nothing for a working day that is neither closed nor on approved leave. */
  predicate Missing(cfg: Config, s: State, c: Call, staff: Id, d: Day) {
    && Visits(cfg, c, staff, d) && (staff, d) !in s.records
    && ResolveEffectiveDay(cfg.staff[staff].calendar, d).dayType != Off
    && !(ExceptionOn(cfg, staff, d).Some? && ExceptionOn(cfg, staff, d).value.isClosed)
    && !OnApprovedLeave(s.leaves, staff, d)
  }

  /** Which call puts the mark on the day, told from the state before it. */
  predicate Writes(cfg: Config, m: Mark, s: State, c: Call, staff: Id, d: Day) {
    match m
    case Penalty =>
      && c.ClockIn? && c.staff == staff && c.onSite && ToWatDay(c.now) == d
      && staff in cfg.staff && (staff, d) !in s.records
      && PenaltyActive(cfg) && !HasPermission(s.leaves, staff, LateArrival, d)
      && Deadline(cfg, staff, d).Some? && c.now - Deadline(cfg, staff, d).value >= 30000
    case NoShow => Missing(cfg, s, c, staff, d)
    case Fee => FeeConfigured(cfg, staff, d) && (Missing(cfg, s, c, staff, d) || LeftOpen(cfg, s, c, staff, d))
    case Excusal =>
      && c.Approve? && c.id < |s.leaves| && s.leaves[c.id].status == Pending && IsDayType(s.leaves[c.id].kind)
      && s.leaves[c.id].staff == staff && staff in cfg.staff
      && s.leaves[c.id].Covers(d) && d - s.leaves[c.id].start < c.days
  }

  // ---- One call, one day ----

  lemma FeeConfiguredMeaning(cfg: Config, staff: Id, d: Day)
    requires staff in cfg.staff
    ensures FeeConfigured(cfg, staff, d) <==> AbsentFee(cfg, staff, d).Some?
  {
  }

  /** A clock-in costs something exactly from half a minute past the grace deadline on. */
  lemma PenaltyIff(cfg: Config, leaves: seq<Attendance.Leave>, staff: Id, d: Day, now: int)
    requires staff in cfg.staff
    ensures ComputeAttendanceOutcome(cfg, leaves, staff, d, now).latePenalty.Some?
       <==> PenaltyActive(cfg) && !HasPermission(leaves, staff, LateArrival, d)
            && Deadline(cfg, staff, d).Some? && now - Deadline(cfg, staff, d).value >= 30000
  {
    OnlyLateIsPenalized(cfg, leaves, staff, d, now);
    LateIff(cfg, leaves, staff, d, now);
    if IsLate(cfg, leaves, staff, d, now) {
      LateButFreeIff(cfg, leaves, staff, d, now);
    }
    hide ComputeAttendanceOutcome, Deadline, HasPermission;
  }

  /**
   * The call keeps the day's record, and the record carries the mark after it exactly when it did or the call
   * writes it.
   */
  predicate WritesExactly(cfg: Config, s: State, c: Call, m: Mark, staff: Id, d: Day) {
    var before, after := Lookup(s.records, staff, d), Lookup(Step(cfg, s, c).records, staff, d);
    && (Carries(m, after) <==> Carries(m, before) || Writes(cfg, m, s, c, staff, d))
    && (before.Some? ==> after.Some?)
  }

  lemma ClockInWrites(cfg: Config, s: State, c: Call, m: Mark, staff: Id, d: Day)
    requires c.ClockIn?
    ensures WritesExactly(cfg, s, c, m, staff, d)
  {
    if c.staff in cfg.staff {
      PenaltyIff(cfg, s.leaves, c.staff, ToWatDay(c.now), c.now);
      OnlyLateIsPenalized(cfg, s.leaves, c.staff, ToWatDay(c.now), c.now);
    }
    hide ComputeAttendanceOutcome, Deadline, HasPermission, ToWatDay;
  }

  lemma ClockOutWrites(cfg: Config, s: State, c: Call, m: Mark, staff: Id, d: Day)
    requires c.ClockOut?
    ensures WritesExactly(cfg, s, c, m, staff, d)
  {
    hide ScheduledEnd, MayLeaveEarly, RoundedMinutes, ToWatDay, WatDateAtTime;
  }

  /** The job may rewrite a fee, with the same one. */
  lemma NightlyWrites(cfg: Config, s: State, c: Call, m: Mark, staff: Id, d: Day)
    requires c.Nightly?
    requires Carries(Fee, Lookup(s.records, staff, d)) ==> FeeConfigured(cfg, staff, d)
    ensures WritesExactly(cfg, s, c, m, staff, d)
  {
    NightlyIsPointwise(cfg, s, c.active, ToWatDay(c.now - DAY_MS), staff, d);
    if staff in cfg.staff {
      FeeConfiguredMeaning(cfg, staff, d);
    }
    hide FeeConfigured, AbsentFee, ToWatDay, NightlySpec, ResolveEffectiveDay, OnApprovedLeave;
  }

  lemma ApproveWrites(cfg: Config, s: State, c: Call, m: Mark, staff: Id, d: Day)
    requires c.Approve?
    ensures WritesExactly(cfg, s, c, m, staff, d)
  {
    hide LeaveRecords;
    if ApproveLeaveSpec(cfg, s, c.id, c.days).Ok? {
      var l := s.leaves[c.id];
      var total := if IsDayType(l.kind) && l.staff in cfg.staff then LeaveLength(l) else 0;
      var written := if c.days < total then c.days else total;
      LeaveRecordsMeaning(s.records, l.staff, l.start, written, (staff, d));
    }
  }

  lemma StepWrites(cfg: Config, s: State, c: Call, m: Mark, staff: Id, d: Day)
    requires Carries(Fee, Lookup(s.records, staff, d)) ==> FeeConfigured(cfg, staff, d)
    ensures WritesExactly(cfg, s, c, m, staff, d)
  {
    match c {
      case ClockIn(_, _, _) => ClockInWrites(cfg, s, c, m, staff, d);
      case ClockOut(_, _, _) => ClockOutWrites(cfg, s, c, m, staff, d);
      case Nightly(_, _) => NightlyWrites(cfg, s, c, m, staff, d);
      case Approve(_, _) => ApproveWrites(cfg, s, c, m, staff, d);
      case Submit(_, _, _, _, _) =>
      case Reject(_) =>
    }
    hide *;
  }

  // ---- Over runs ----

  /** The i-th call of the run from empty tables writes the mark. */
  predicate WrittenAt(cfg: Config, calls: seq<Call>, m: Mark, staff: Id, d: Day, i: nat)
    requires i < |calls|
  {
    Writes(cfg, m, Run(cfg, EMPTY, calls[..i]), calls[i], staff, d)
  }

  predicate Written(cfg: Config, calls: seq<Call>, m: Mark, staff: Id, d: Day) {
    exists i | 0 <= i < |calls| :: WrittenAt(cfg, calls, m, staff, d, i)
  }

  lemma {:induction false} RunAppend(cfg: Config, s: State, calls: seq<Call>, c: Call)
    ensures Run(cfg, s, calls + [c]) == Step(cfg, Run(cfg, s, calls), c)
    decreases |calls|
  {
    hide Step;
    if calls == [] {
      assert [c][1..] == [] && [] + [c] == [c];
    } else {
      assert (calls + [c])[1..] == calls[1..] + [c];
      RunAppend(cfg, Step(cfg, s, calls[0]), calls[1..], c);
    }
  }

  lemma LastCall(cfg: Config, calls: seq<Call>)
    requires calls != []
    ensures Run(cfg, EMPTY, calls) == Step(cfg, Run(cfg, EMPTY, calls[..|calls| - 1]), calls[|calls| - 1])
  {
    RunAppend(cfg, EMPTY, calls[..|calls| - 1], calls[|calls| - 1]);
    assert calls == calls[..|calls| - 1] + [calls[|calls| - 1]];
  }

  lemma WrittenGrows(cfg: Config, calls: seq<Call>, m: Mark, staff: Id, d: Day)
    requires calls != []
    ensures Written(cfg, calls, m, staff, d)
       <==> || Written(cfg, calls[..|calls| - 1], m, staff, d)
            || Writes(cfg, m, Run(cfg, EMPTY, calls[..|calls| - 1]), calls[|calls| - 1], staff, d)
  {
    hide Writes, Run;
    var n := |calls| - 1;
    forall i | 0 <= i < n
      ensures WrittenAt(cfg, calls[..n], m, staff, d, i) <==> WrittenAt(cfg, calls, m, staff, d, i)
    {
      assert calls[..n][..i] == calls[..i];
    }
    assert WrittenAt(cfg, calls, m, staff, d, n)
      <==> Writes(cfg, m, Run(cfg, EMPTY, calls[..n]), calls[n], staff, d);
  }

  /** In every run a record carries a mark exactly when one of the calls wrote it there: none is ever taken off. */
  lemma {:induction false} MarkedIffWritten(cfg: Config, calls: seq<Call>, m: Mark, staff: Id, d: Day)
    ensures Carries(m, Lookup(Run(cfg, EMPTY, calls).records, staff, d)) <==> Written(cfg, calls, m, staff, d)
    ensures Written(cfg, calls, Fee, staff, d) ==> FeeConfigured(cfg, staff, d)
    decreases |calls|
  {
    if calls != [] {
      var before := calls[..|calls| - 1];
      MarkedIffWritten(cfg, before, m, staff, d);
      MarkedIffWritten(cfg, before, Fee, staff, d);
      LastCall(cfg, calls);
      StepWrites(cfg, Run(cfg, EMPTY, before), calls[|calls| - 1], m, staff, d);
      WrittenGrows(cfg, calls, m, staff, d);
    }
    hide Run, Lookup, FeeConfigured;
  }

  /** What one call wrote is on the record when any later call is made. */
  lemma MarkedBefore(cfg: Config, calls: seq<Call>, m: Mark, staff: Id, d: Day, i: nat, j: nat)
    requires i < j < |calls| && WrittenAt(cfg, calls, m, staff, d, i)
    ensures Carries(m, Lookup(Run(cfg, EMPTY, calls[..j]).records, staff, d))
  {
    assert calls[..j][..i] == calls[..i];
    assert WrittenAt(cfg, calls[..j], m, staff, d, i);
    MarkedIffWritten(cfg, calls[..j], m, staff, d);
    hide Run, Writes, Carries;
  }

  // ---- A day charged as late and as absent ----

  /** At its i-th call the run finds the day's record left open. */
  predicate LeftOpenAt(cfg: Config, calls: seq<Call>, staff: Id, d: Day, i: nat)
    requires i < |calls|
  {
    LeftOpen(cfg, Run(cfg, EMPTY, calls[..i]), calls[i], staff, d)
  }

  predicate ChargedTwice(r: Option<Record>) { Carries(Penalty, r) && Carries(Fee, r) }

  lemma FeeAfterPenalty(cfg: Config, calls: seq<Call>, staff: Id, d: Day, i: nat, j: nat)
    requires i < |calls| && WrittenAt(cfg, calls, Penalty, staff, d, i)
    requires j < |calls| && WrittenAt(cfg, calls, Fee, staff, d, j)
    ensures i < j && LeftOpenAt(cfg, calls, staff, d, j)
  {
    if i < j {
      MarkedBefore(cfg, calls, Penalty, staff, d, i, j);
    } else if j < i {
      MarkedBefore(cfg, calls, Fee, staff, d, j, i);
    }
    hide Run, FeeConfigured, HasPermission, Deadline;
  }

  /**
   * A day is charged both as late and as absent exactly when a penalised clock-in is followed by a
   * nightly job that finds it without check-out, and the day's absence has a price.
   */
  lemma ChargedTwiceIff(cfg: Config, calls: seq<Call>, staff: Id, d: Day)
    ensures ChargedTwice(Lookup(Run(cfg, EMPTY, calls).records, staff, d))
       <==> FeeConfigured(cfg, staff, d)
            && exists i: nat, j: nat | i < j < |calls| ::
                 WrittenAt(cfg, calls, Penalty, staff, d, i) && LeftOpenAt(cfg, calls, staff, d, j)
  {
    MarkedIffWritten(cfg, calls, Penalty, staff, d);
    MarkedIffWritten(cfg, calls, Fee, staff, d);
    if ChargedTwice(Lookup(Run(cfg, EMPTY, calls).records, staff, d)) {
      var i: nat :| i < |calls| && WrittenAt(cfg, calls, Penalty, staff, d, i);
      var j: nat :| j < |calls| && WrittenAt(cfg, calls, Fee, staff, d, j);
      FeeAfterPenalty(cfg, calls, staff, d, i, j);
    }
    if FeeConfigured(cfg, staff, d) && exists i: nat, j: nat | i < j < |calls| ::
         WrittenAt(cfg, calls, Penalty, staff, d, i) && LeftOpenAt(cfg, calls, staff, d, j) {
      var i: nat, j: nat :| i < j < |calls|
        && WrittenAt(cfg, calls, Penalty, staff, d, i) && LeftOpenAt(cfg, calls, staff, d, j);
      assert WrittenAt(cfg, calls, Fee, staff, d, j);
    }
    hide Run, FeeConfigured, Lookup, LeftOpen;
  }

  /** Half a minute past the grace deadline, no check-out, and the night's job: charged as late and as absent. */
  lemma ChargedTwiceReachable(cfg: Config, staff: Id, now: int, night: int)
    requires FeeConfigured(cfg, staff, ToWatDay(now)) && ToWatDay(night - DAY_MS) == ToWatDay(now)
    requires Deadline(cfg, staff, ToWatDay(now)).Some?
    requires now - Deadline(cfg, staff, ToWatDay(now)).value >= 30000
    ensures var d := ToWatDay(now);
            var s := Run(cfg, EMPTY, [ClockIn(staff, now, true), Nightly([staff], night)]);
            ChargedTwice(Lookup(s.records, staff, d))
  {
    var d := ToWatDay(now);
    var calls := [ClockIn(staff, now, true), Nightly([staff], night)];
    var s1 := Step(cfg, EMPTY, calls[0]);
    assert Writes(cfg, Penalty, EMPTY, calls[0], staff, d);
    StepWrites(cfg, EMPTY, calls[0], Penalty, staff, d);
    StepWrites(cfg, EMPTY, calls[0], Fee, staff, d);
    FreshRecordIsOpen(cfg, staff, now);
    assert Writes(cfg, Fee, s1, calls[1], staff, d);
    StepWrites(cfg, s1, calls[1], Penalty, staff, d);
    StepWrites(cfg, s1, calls[1], Fee, staff, d);
    hide Step, Carries, Writes;
    assert calls[1..] == [calls[1]] && [calls[1]][1..] == [];
    assert Run(cfg, s1, [calls[1]]) == Run(cfg, Step(cfg, s1, calls[1]), []);
  }

  /** Less than half a minute past the grace deadline: LATE, and nothing to pay. */
  lemma LateAndFreeReachable(cfg: Config, staff: Id, now: int)
    requires staff in cfg.staff && Deadline(cfg, staff, ToWatDay(now)).Some?
    requires 0 < now - Deadline(cfg, staff, ToWatDay(now)).value < 30000
    ensures var r := Lookup(Run(cfg, EMPTY, [ClockIn(staff, now, true)]).records, staff, ToWatDay(now));
            r.Some? && r.value.status == AS.Late && !Carries(Penalty, r)
  {
    var d := ToWatDay(now);
    var calls := [ClockIn(staff, now, true)];
    LateIff(cfg, [], staff, d, now);
    PenaltyIff(cfg, [], staff, d, now);
    hide ComputeAttendanceOutcome, Deadline, ToWatDay;
    assert calls[1..] == [];
    assert Run(cfg, EMPTY, calls) == Step(cfg, EMPTY, calls[0]);
  }

  lemma FreshRecordIsOpen(cfg: Config, staff: Id, now: int)
    requires staff in cfg.staff && Deadline(cfg, staff, ToWatDay(now)).Some?
    ensures var records := Step(cfg, EMPTY, ClockIn(staff, now, true)).records;
            (staff, ToWatDay(now)) in records && NeverCheckedOut(records[(staff, ToWatDay(now))])
  {
    hide ToWatDay, RoundedMinutes, LatePenalty, ResolveEffectiveDay;
  }

  // ---- A leave day that stays charged ----

  /**
   * A leave day carries an absent fee exactly when the nightly job charged it before the approval
   * reached it: the approval takes no fee back, and no job charges a day on leave.
   */
  lemma LeaveDayChargedIff(cfg: Config, calls: seq<Call>, staff: Id, d: Day)
    ensures var r := Lookup(Run(cfg, EMPTY, calls).records, staff, d);
            (Carries(Excusal, r) && Carries(Fee, r)
             <==> exists j: nat, i: nat | j < i < |calls| ::
                    WrittenAt(cfg, calls, Fee, staff, d, j) && WrittenAt(cfg, calls, Excusal, staff, d, i))
  {
    MarkedIffWritten(cfg, calls, Excusal, staff, d);
    MarkedIffWritten(cfg, calls, Fee, staff, d);
    if Written(cfg, calls, Excusal, staff, d) && Written(cfg, calls, Fee, staff, d) {
      var i: nat :| i < |calls| && WrittenAt(cfg, calls, Excusal, staff, d, i);
      var j: nat :| j < |calls| && WrittenAt(cfg, calls, Fee, staff, d, j);
      BeforeTheLeave(cfg, calls, Fee, staff, d, i, j);
    }
    hide Run, Lookup, WrittenAt;
  }

  /** The job charges a day, or writes a no-show row for it, only before a leave reaches it. */
  lemma BeforeTheLeave(cfg: Config, calls: seq<Call>, m: Mark, staff: Id, d: Day, i: nat, j: nat)
    requires m == Fee || m == NoShow
    requires i < |calls| && WrittenAt(cfg, calls, Excusal, staff, d, i)
    requires j < |calls| && WrittenAt(cfg, calls, m, staff, d, j)
    ensures j < i
  {
    if i < j {
      MarkedBefore(cfg, calls, Excusal, staff, d, i, j);
    }
    hide Run, FeeConfigured;
  }

  /** An absence on a priced working day, then a leave for it: the day is ON_LEAVE and still charged. */
  lemma ChargedLeaveReachable(cfg: Config, staff: Id, d: Day, now: int)
    requires FeeConfigured(cfg, staff, d) && ToWatDay(now - DAY_MS) == d
    requires ResolveEffectiveDay(cfg.staff[staff].calendar, d).dayType != Off && ExceptionOn(cfg, staff, d).None?
    ensures var calls := [Nightly([staff], now), Submit(staff, AnnualLeave, d, d, None), Approve(0, 1)];
            var r := Lookup(Run(cfg, EMPTY, calls).records, staff, d);
            Carries(Excusal, r) && Carries(Fee, r)
  {
    var calls := [Nightly([staff], now), Submit(staff, AnnualLeave, d, d, None), Approve(0, 1)];
    var s1 := Step(cfg, EMPTY, calls[0]);
    var s2 := Step(cfg, s1, calls[1]);
    StepWrites(cfg, EMPTY, calls[0], Fee, staff, d);
    StepWrites(cfg, s1, calls[1], Fee, staff, d);
    StepWrites(cfg, s2, calls[2], Fee, staff, d);
    StepWrites(cfg, s2, calls[2], Excusal, staff, d);
    assert s1.leaves == [] by { NightlyIsPointwise(cfg, EMPTY, [staff], d, staff, d); }
    hide NightlySpec, ApproveLeaveSpec, FeeConfigured, ToWatDay;
    assert calls[1..] == [calls[1], calls[2]] && [calls[1], calls[2]][1..] == [calls[2]] && [calls[2]][1..] == [];
    assert Run(cfg, s2, [calls[2]]) == Step(cfg, s2, calls[2]);
    assert Run(cfg, s1, [calls[1], calls[2]]) == Run(cfg, s2, [calls[2]]);
  }

  // ---- Leave days in the period summary ----

  /** What the period summary reads of a record; this part of the program never decides on extra work. */
  function Summarized(r: Record): AS.Record {
    AS.Record(r.status, r.checkInAt.Some?, r.earlyDepartureMinutes, None)
  }

  /** The approved requests of a day type of one staff member. */
  function DayLeaves(leaves: seq<Attendance.Leave>, staff: Id): seq<AS.Leave> {
    if leaves == [] then []
    else
      var l := leaves[|leaves| - 1];
      DayLeaves(leaves[..|leaves| - 1], staff)
      + if l.staff == staff && IsDayType(l.kind) && l.status == Approved then [AS.Leave(l.start, l.end)] else []
  }

  /** One staff member's part of the tables, as the summary fetches it. */
  function SummaryView(cfg: Config, s: State, staff: Id, closures: set<Day>): AS.Attendance
    requires staff in cfg.staff
  {
    AS.Attendance(cfg.staff[staff].calendar,
                  map k <- s.records | k.0 == staff :: k.1 := Summarized(s.records[k]),
                  DayLeaves(s.leaves, staff), closures)
  }

  predicate SomeCovers(leaves: seq<AS.Leave>, d: Day) {
    exists i :: 0 <= i < |leaves| && leaves[i].start <= d <= leaves[i].end
  }

  lemma SomeCoversAppend(leaves: seq<AS.Leave>, l: AS.Leave, d: Day)
    ensures SomeCovers(leaves + [l], d) <==> SomeCovers(leaves, d) || l.start <= d <= l.end
  {
    var all := leaves + [l];
    assert all[|leaves|] == l && forall i | 0 <= i < |leaves| :: all[i] == leaves[i];
  }

  lemma OnApprovedLeaveLast(leaves: seq<Attendance.Leave>, staff: Id, d: Day)
    requires leaves != []
    ensures var l := leaves[|leaves| - 1];
            OnApprovedLeave(leaves, staff, d)
            <==> || OnApprovedLeave(leaves[..|leaves| - 1], staff, d)
                 || (l.staff == staff && IsDayType(l.kind) && l.status == Approved && l.Covers(d))
  {
    assert forall i | 0 <= i < |leaves| - 1 :: leaves[..|leaves| - 1][i] == leaves[i];
  }

  lemma {:induction false} DayLeavesMeaning(leaves: seq<Attendance.Leave>, staff: Id, d: Day)
    ensures SomeCovers(DayLeaves(leaves, staff), d) <==> OnApprovedLeave(leaves, staff, d)
    decreases |leaves|
  {
    if leaves != [] {
      var l := leaves[|leaves| - 1];
      DayLeavesMeaning(leaves[..|leaves| - 1], staff, d);
      OnApprovedLeaveLast(leaves, staff, d);
      var before := DayLeaves(leaves[..|leaves| - 1], staff);
      SomeCoversAppend(before, AS.Leave(l.start, l.end), d);
      assert before + [] == before;
      hide OnApprovedLeave, SomeCovers;
    }
  }

  /** The summary and the nightly job agree on who is on approved leave. */
  lemma SameLeaveDays(cfg: Config, s: State, staff: Id, closures: set<Day>, d: Day)
    requires staff in cfg.staff
    ensures AS.LeaveDay(SummaryView(cfg, s, staff, closures), d) <==> OnApprovedLeave(s.leaves, staff, d)
  {
    DayLeavesMeaning(s.leaves, staff, d);
  }

  /** A day of a carried-through leave counts as checked in exactly when no job had written a no-show row for it. */
  lemma LeaveDayView(cfg: Config, calls: seq<Call>, i: nat, closures: set<Day>, d: Day)
    requires i < |Run(cfg, EMPTY, calls).leaves| && DayHeldBy(cfg, Run(cfg, EMPTY, calls).leaves[i], d)
    ensures var s := Run(cfg, EMPTY, calls);
            var staff := s.leaves[i].staff;
            var a := SummaryView(cfg, s, staff, closures);
            && (AS.CheckedIn(a, d) <==> !Written(cfg, calls, NoShow, staff, d))
            && (AS.Excused(a, d) <==> Written(cfg, calls, NoShow, staff, d))
  {
    var s := Run(cfg, EMPTY, calls);
    var staff := s.leaves[i].staff;
    ApprovedDaysStayOnLeave(cfg, calls, [], i, d);
    MarkedIffWritten(cfg, calls, NoShow, staff, d);
    SameLeaveDays(cfg, s, staff, closures, d);
    var a := SummaryView(cfg, s, staff, closures);
    assert d in a.records && a.records[d] == Summarized(s.records[(staff, d)]);
    assert AS.LeaveDay(a, d);
    hide Run, AS.LeaveDay, Written;
  }

  lemma {:induction false} CountTogether(p: Day -> bool, q: Day -> bool, r: Day -> bool, from: Day, till: Day)
    requires forall d | from <= d <= till :: (r(d) <==> p(d) || q(d)) && !(p(d) && q(d))
    ensures AS.CountDays(r, from, till) == AS.CountDays(p, from, till) + AS.CountDays(q, from, till)
    decreases till - from + 1
  {
    if from <= till {
      CountTogether(p, q, r, from, till - 1);
    }
  }

  /** The expected days for which some nightly job wrote a no-show row. */
  function NoShowDays(cfg: Config, calls: seq<Call>, a: AS.Attendance, staff: Id, today: Day, from: Day,
                      till: Day): nat
  {
    AS.CountDays(d => AS.Expected(a, today, d) && Written(cfg, calls, NoShow, staff, d), from, till)
  }

  /** The expected days for which none did. */
  function UnmissedDays(cfg: Config, calls: seq<Call>, a: AS.Attendance, staff: Id, today: Day, from: Day,
                        till: Day): nat
  {
    AS.CountDays(d => AS.Expected(a, today, d) && !Written(cfg, calls, NoShow, staff, d), from, till)
  }

  lemma NoUnmissedDayIff(
    cfg: Config, calls: seq<Call>, a: AS.Attendance, staff: Id, today: Day, from: Day, till: Day)
    ensures UnmissedDays(cfg, calls, a, staff, today, from, till) == 0
       <==> forall d | from <= d <= till && AS.Expected(a, today, d) :: Written(cfg, calls, NoShow, staff, d)
  {
    var p := d => AS.Expected(a, today, d) && !Written(cfg, calls, NoShow, staff, d);
    hide Written, AS.Expected;
    CountNone(p, from, till);
    assert forall d :: p(d) <==> AS.Expected(a, today, d) && !Written(cfg, calls, NoShow, staff, d);
    assert UnmissedDays(cfg, calls, a, staff, today, from, till) == AS.CountDays(p, from, till);
  }

  /**
   * Days of a carried-through leave count as worked, half or whole, exactly where no no-show row was there
   * before; only where one was do they count as excused, and none counts as absent.
   */
  lemma LeaveDaysCountAsWorked(cfg: Config, calls: seq<Call>, i: nat, closures: set<Day>, today: Day, from: Day,
                               till: Day)
    requires i < |Run(cfg, EMPTY, calls).leaves|
    requires forall d | from <= d <= till :: DayHeldBy(cfg, Run(cfg, EMPTY, calls).leaves[i], d)
    requires Run(cfg, EMPTY, calls).leaves[i].staff in cfg.staff
    ensures var s := Run(cfg, EMPTY, calls);
            var staff := s.leaves[i].staff;
            var a := SummaryView(cfg, s, staff, closures);
            && AS.WorkedDays(a, today, from, till) + AS.HalfDays(a, today, from, till)
               == UnmissedDays(cfg, calls, a, staff, today, from, till)
            && AS.ExcusedDays(a, today, from, till) == NoShowDays(cfg, calls, a, staff, today, from, till)
            && AS.AbsentDays(a, today, from, till) == 0
  {
    var s := Run(cfg, EMPTY, calls);
    var staff := s.leaves[i].staff;
    var a := SummaryView(cfg, s, staff, closures);
    forall d | from <= d <= till
      ensures AS.CheckedIn(a, d) <==> !Written(cfg, calls, NoShow, staff, d)
      ensures AS.Excused(a, d) <==> Written(cfg, calls, NoShow, staff, d)
    {
      LeaveDayView(cfg, calls, i, closures, d);
    }
    hide Run, SummaryView, Written, AS.CheckedIn, AS.Excused, AS.Expected, DayHeldBy;
    CountTogether(d => AS.Expected(a, today, d) && AS.CheckedIn(a, d) && !AS.IsHalf(a, d),
                  d => AS.Expected(a, today, d) && AS.CheckedIn(a, d) && AS.IsHalf(a, d),
                  d => AS.Expected(a, today, d) && !Written(cfg, calls, NoShow, staff, d), from, till);
    CountTogether(d => AS.Expected(a, today, d) && AS.Excused(a, d), d => false,
                  d => AS.Expected(a, today, d) && Written(cfg, calls, NoShow, staff, d), from, till);
    CountNone(d => false, from, till);
    CountNone(d => AS.Expected(a, today, d) && !AS.CheckedIn(a, d) && !AS.Excused(a, d), from, till);
  }

  lemma {:induction false} CountNone(p: Day -> bool, from: Day, till: Day)
    ensures AS.CountDays(p, from, till) == 0 <==> forall d | from <= d <= till :: !p(d)
    decreases till - from + 1
  {
    if from <= till {
      CountNone(p, from, till - 1);
    }
  }

  /**
   * So a carried-through leave adds nothing to the days worked exactly when every expected day of it had its
   * no-show row.
   */
  lemma LeaveIsOnlyExcusedIff(cfg: Config, calls: seq<Call>, i: nat, closures: set<Day>, today: Day, from: Day,
                              till: Day)
    requires i < |Run(cfg, EMPTY, calls).leaves|
    requires forall d | from <= d <= till :: DayHeldBy(cfg, Run(cfg, EMPTY, calls).leaves[i], d)
    requires Run(cfg, EMPTY, calls).leaves[i].staff in cfg.staff
    ensures var s := Run(cfg, EMPTY, calls);
            var staff := s.leaves[i].staff;
            var a := SummaryView(cfg, s, staff, closures);
            (AS.WorkedDays(a, today, from, till) + AS.HalfDays(a, today, from, till) == 0
             <==> forall d | from <= d <= till && AS.Expected(a, today, d) :: Written(cfg, calls, NoShow, staff, d))
  {
    LeaveDaysCountAsWorked(cfg, calls, i, closures, today, from, till);
    var staff := Run(cfg, EMPTY, calls).leaves[i].staff;
    var a := SummaryView(cfg, Run(cfg, EMPTY, calls), staff, closures);
    NoUnmissedDayIff(cfg, calls, a, staff, today, from, till);
    hide *;
  }

  /** A leave asked for and approved in advance, on an expected day: the summary has the day as worked. */
  lemma WorkedLeaveReachable(cfg: Config, staff: Id, d: Day, closures: set<Day>, today: Day)
    requires staff in cfg.staff
    requires d <= today && Works(cfg.staff[staff].calendar, d)
    ensures var s := Run(cfg, EMPTY, [Submit(staff, AnnualLeave, d, d, None), Approve(0, 1)]);
            var a := SummaryView(cfg, s, staff, closures);
            && AS.WorkedDays(a, today, d, d) + AS.HalfDays(a, today, d, d) == 1
            && AS.ExcusedDays(a, today, d, d) == 0
  {
    var calls := [Submit(staff, AnnualLeave, d, d, None), Approve(0, 1)];
    assert calls[1..] == [calls[1]] && [calls[1]][1..] == [];
    var s1 := Step(cfg, EMPTY, calls[0]);
    assert Run(cfg, s1, [calls[1]]) == Step(cfg, s1, calls[1]);
    var s := Run(cfg, EMPTY, calls);
    assert DayHeldBy(cfg, s.leaves[0], d);
    LeaveDaysCountAsWorked(cfg, calls, 0, closures, today, d, d);
    assert !Written(cfg, calls, NoShow, staff, d);
    var a := SummaryView(cfg, s, staff, closures);
    assert AS.Expected(a, today, d);
    assert NoShowDays(cfg, calls, a, staff, today, d, d - 1) == 0;
    assert UnmissedDays(cfg, calls, a, staff, today, d, d - 1) == 0;
  }

  /** Two days of leave across the end of January 1970, asked for and approved: both months report two. */
  lemma LeaveAcrossMonthsReachable(cfg: Config, staff: Id, closures: set<Day>)
    requires staff in cfg.staff
    ensures var s := Run(cfg, EMPTY, [Submit(staff, AnnualLeave, 30, 31, None), Approve(0, 2)]);
            var a := SummaryView(cfg, s, staff, closures);
            |AS.LeaveDates(a.leaves, 0, 30)| == |AS.LeaveDates(a.leaves, 31, 58)| == 2
  {
    var calls := [Submit(staff, AnnualLeave, 30, 31, None), Approve(0, 2)];
    assert calls[1..] == [calls[1]] && [calls[1]][1..] == [];
    var s1 := Step(cfg, EMPTY, calls[0]);
    var s := Step(cfg, s1, calls[1]);
    assert Run(cfg, s1, [calls[1]]) == s;
    assert s.leaves == [Attendance.Leave(staff, AnnualLeave, 30, 31, None, Approved, true)];
    assert s.leaves[..0] == [] && DayLeaves(s.leaves, staff) == AS.ACROSS_MONTH_END.leaves;
    AS.LeaveCountedTwice();
  }
}

/** Runs of leave and attendance: disjoint leave, protected leave days, the nightly job, and what lateness costs. */
module AttendanceRuns {
  import opened Base
  import opened WatTime
  import opened WorkCalendar
  import AS = AttendanceSummary
  import opened Attendance

  /** Everything but manual corrections. */
  datatype Call =
    | ClockIn(staff: Id, now: int, onSite: bool)
    | ClockOut(staff: Id, now: int, onSite: bool)
    | Nightly(active: seq<Id>, now: int)
    | Submit(staff: Id, kind: LeaveType, start: Day, end: Day, startTime: Option<TimeOfDay>)
    | Approve(id: Id, days: nat)
    | Reject(id: Id)

  function OrUnchanged(s: State, r: Result<State>): State {
    match r case Ok(after) => after case Err(_) => s
  }

  function Step(cfg: Config, s: State, c: Call): State {
    match c
    case ClockIn(staff, now, onSite) => OrUnchanged(s, ClockInSpec(cfg, s, staff, now, onSite))
    case ClockOut(staff, now, onSite) => OrUnchanged(s, ClockOutSpec(cfg, s, staff, now, onSite))
    case Nightly(active, now) => NightlySpec(cfg, s, active, ToWatDay(now - DAY_MS))
    case Submit(staff, kind, start, end, startTime) =>
      OrUnchanged(s, SubmitSpec(cfg, s, staff, kind, start, end, startTime))
    case Approve(id, days) => OrUnchanged(s, ApproveLeaveSpec(cfg, s, id, days))
    case Reject(id) => OrUnchanged(s, RejectLeaveSpec(s, id))
  }

  function Run(cfg: Config, s: State, calls: seq<Call>): State
    decreases |calls|
  {
    if calls == [] then s else Run(cfg, Step(cfg, s, calls[0]), calls[1..])
  }

  const EMPTY := State(map[], [])

  // ---- Leave intervals stay disjoint ----

  predicate Clash(a: Leave, b: Leave) {
    a.staff == b.staff && a.Open() && b.Open() && a.start <= b.end && b.start <= a.end
  }

  ghost predicate Disjoint(leaves: seq<Leave>) {
    && (forall i | 0 <= i < |leaves| :: leaves[i].start <= leaves[i].end)
    && (forall i, j | 0 <= i < j < |leaves| :: !Clash(leaves[i], leaves[j]))
  }

  /** A decided request differs from the pending one in its status alone; it does not become open again. */
  lemma DecisionKeepsDisjoint(leaves: seq<Leave>, id: Id, l: Leave)
    requires Disjoint(leaves) && id < |leaves| && (l.Open() ==> leaves[id].Open())
    requires l.staff == leaves[id].staff && l.start == leaves[id].start && l.end == leaves[id].end
    ensures Disjoint(leaves[id := l])
  {
  }

  lemma SubmitKeepsDisjoint(cfg: Config, s: State, staff: Id, kind: LeaveType, start: Day, end: Day,
                            t: Option<TimeOfDay>)
    requires Disjoint(s.leaves)
    ensures Disjoint(OrUnchanged(s, SubmitSpec(cfg, s, staff, kind, start, end, t)).leaves)
  {
  }

  // ---- A leave day stays on leave ----

  predicate IsOnLeave(s: State, staff: Id, d: Day) {
    (staff, d) in s.records && s.records[(staff, d)].status == AS.OnLeave
  }

  /** An approval that wrote all its records has one for every day, and they are still ON_LEAVE. */
  ghost predicate LeaveDaysHeld(cfg: Config, s: State) {
    forall i, d: Day | 0 <= i < |s.leaves| && DayHeldBy(cfg, s.leaves[i], d) :: IsOnLeave(s, s.leaves[i].staff, d)
  }

  predicate DayHeldBy(cfg: Config, l: Leave, d: Day) {
    l.status == Approved && l.applied && IsDayType(l.kind) && l.staff in cfg.staff && l.Covers(d)
  }

  ghost predicate NoDayLost(s: State, s2: State) {
    forall staff: Id, d: Day | IsOnLeave(s, staff, d) :: IsOnLeave(s2, staff, d)
  }

  lemma {:induction false} LeaveRecordsMeaning(records: map<(Id, Day), Record>, staff: Id, start: Day, n: nat,
                                               k: (Id, Day))
    ensures var after := LeaveRecords(records, staff, start, n);
            if k.0 == staff && start <= k.1 < start + n then
              k in after && after[k] == LeaveRecord(Lookup(records, k.0, k.1), k.1)
            else (k in after <==> k in records) && (k in records ==> after[k] == records[k])
    decreases n
  {
    if n > 0 {
      LeaveRecordsMeaning(records, staff, start, n - 1, k);
      LeaveRecordsMeaning(records, staff, start, n - 1, (staff, start + n - 1));
    }
  }

  // ---- The nightly job is one rule per staff member ----

  lemma RuleTwice(cfg: Config, leaves: seq<Leave>, staff: Id, d: Day, r: Option<Record>)
    ensures var once := NightlyRule(cfg, leaves, staff, d, r); NightlyRule(cfg, leaves, staff, d, once) == once
  {
  }

  lemma RuleKeepsRecords(cfg: Config, leaves: seq<Leave>, staff: Id, d: Day, r: Option<Record>)
    ensures r.Some? ==> NightlyRule(cfg, leaves, staff, d, r).Some?
  {
  }

  /** Whatever the order of the loop, each active staff member's day is the rule applied to what it was. */
  lemma {:induction false} NightlyIsPointwise(cfg: Config, s: State, active: seq<Id>, d: Day, staff: Id, e: Day)
    ensures var after := NightlySpec(cfg, s, active, d);
            && after.leaves == s.leaves
            && Lookup(after.records, staff, e)
               == if staff in active && e == d then NightlyRule(cfg, s.leaves, staff, d, Lookup(s.records, staff, d))
                  else Lookup(s.records, staff, e)
    decreases |active|
  {
    hide NightlyRule;
    if active != [] {
      var n := |active| - 1;
      NightlyIsPointwise(cfg, s, active[..n], d, staff, e);
      NightlyIsPointwise(cfg, s, active[..n], d, active[n], d);
      assert staff in active <==> staff in active[..n] || staff == active[n];
      var before := NightlySpec(cfg, s, active[..n], d);
      RuleTwice(cfg, s.leaves, active[n], d, Lookup(s.records, active[n], d));
      RuleKeepsRecords(cfg, s.leaves, active[n], d, Lookup(before.records, active[n], d));
      StoreMeaning(before.records, active[n], d,
                   NightlyRule(cfg, s.leaves, active[n], d, Lookup(before.records, active[n], d)),
                   staff, e);
    }
  }

  lemma StoreMeaning(records: map<(Id, Day), Record>, staff: Id, d: Day, r: Option<Record>, staff2: Id, e: Day)
    requires Lookup(records, staff, d).Some? ==> r.Some?
    ensures Lookup(Store(records, staff, d, r), staff2, e)
         == if staff2 == staff && e == d then r else Lookup(records, staff2, e)
  {
  }

  lemma SameLookups(a: map<(Id, Day), Record>, b: map<(Id, Day), Record>)
    requires forall staff: Id, d: Day :: Lookup(a, staff, d) == Lookup(b, staff, d)
    ensures a == b
  {
    forall k: (Id, Day) ensures (k in a <==> k in b) && (k in a ==> a[k] == b[k]) {
      assert Lookup(a, k.0, k.1) == Lookup(b, k.0, k.1);
      assert k == (k.0, k.1);
    }
  }

  /** Running the job again the same night changes nothing. */
  lemma NightlyTwiceIsOnce(cfg: Config, s: State, active: seq<Id>, d: Day)
    ensures var once := NightlySpec(cfg, s, active, d); NightlySpec(cfg, once, active, d) == once
  {
    hide NightlySpec, NightlyRule, Lookup;
    var once := NightlySpec(cfg, s, active, d);
    var twice := NightlySpec(cfg, once, active, d);
    forall staff: Id, e: Day ensures Lookup(twice.records, staff, e) == Lookup(once.records, staff, e) {
      NightlyIsPointwise(cfg, s, active, d, staff, e);
      NightlyIsPointwise(cfg, once, active, d, staff, e);
      RuleTwice(cfg, s.leaves, staff, d, Lookup(s.records, staff, d));
    }
    SameLookups(twice.records, once.records);
    NightlyIsPointwise(cfg, s, active, d, 0, d);
    NightlyIsPointwise(cfg, once, active, d, 0, d);
  }

  /** The order in which the active staff are visited does not matter. */
  lemma NightlyOrderIrrelevant(cfg: Config, s: State, active: seq<Id>, other: seq<Id>, d: Day)
    requires forall staff :: staff in active <==> staff in other
    ensures NightlySpec(cfg, s, active, d) == NightlySpec(cfg, s, other, d)
  {
    hide NightlySpec, NightlyRule, Lookup;
    var a, b := NightlySpec(cfg, s, active, d), NightlySpec(cfg, s, other, d);
    forall staff: Id, e: Day ensures Lookup(a.records, staff, e) == Lookup(b.records, staff, e) {
      NightlyIsPointwise(cfg, s, active, d, staff, e);
      NightlyIsPointwise(cfg, s, other, d, staff, e);
    }
    SameLookups(a.records, b.records);
    NightlyIsPointwise(cfg, s, active, d, 0, d);
    NightlyIsPointwise(cfg, s, other, d, 0, d);
  }

  // ---- The invariant over runs ----

  ghost predicate Invariant(cfg: Config, s: State) {
    Disjoint(s.leaves) && LeaveDaysHeld(cfg, s)
  }

  lemma HeldDaysSurvive(cfg: Config, s: State, s2: State)
    requires LeaveDaysHeld(cfg, s) && NoDayLost(s, s2)
    requires forall i, d: Day | 0 <= i < |s2.leaves| && DayHeldBy(cfg, s2.leaves[i], d) ::
               i < |s.leaves| && DayHeldBy(cfg, s.leaves[i], d) && s2.leaves[i].staff == s.leaves[i].staff
    ensures LeaveDaysHeld(cfg, s2)
  {
  }

  lemma ApproveKeeps(cfg: Config, s: State, id: Id, days: nat)
    requires Invariant(cfg, s) && ApproveLeaveSpec(cfg, s, id, days).Ok?
    ensures var s2 := ApproveLeaveSpec(cfg, s, id, days).value; Invariant(cfg, s2) && NoDayLost(s, s2)
  {
    var s2 := ApproveLeaveSpec(cfg, s, id, days).value;
    var l := s.leaves[id];
    DecisionKeepsDisjoint(s.leaves, id, s2.leaves[id]);
    var total := if IsDayType(l.kind) && l.staff in cfg.staff then LeaveLength(l) else 0;
    var written := if days < total then days else total;
    hide LeaveRecords;
    forall staff: Id, d: Day | IsOnLeave(s, staff, d) ensures IsOnLeave(s2, staff, d) {
      LeaveRecordsMeaning(s.records, l.staff, l.start, written, (staff, d));
    }
    forall i, d: Day | 0 <= i < |s2.leaves| && DayHeldBy(cfg, s2.leaves[i], d)
      ensures IsOnLeave(s2, s2.leaves[i].staff, d)
    {
      if i == id {
        LeaveRecordsMeaning(s.records, l.staff, l.start, written, (l.staff, d));
      } else {
        assert DayHeldBy(cfg, s.leaves[i], d);
        assert IsOnLeave(s, s.leaves[i].staff, d);
      }
    }
  }

  lemma NightlyKeepsDays(cfg: Config, s: State, active: seq<Id>, d: Day)
    ensures NightlySpec(cfg, s, active, d).leaves == s.leaves && NoDayLost(s, NightlySpec(cfg, s, active, d))
  {
  }

  /** A clock-in needs a free day and a clock-out leaves the status alone. */
  lemma ClockingKeepsDays(cfg: Config, s: State, c: Call)
    requires c.ClockIn? || c.ClockOut?
    ensures Step(cfg, s, c).leaves == s.leaves && NoDayLost(s, Step(cfg, s, c))
  {
  }

  lemma StepKeeps(cfg: Config, s: State, c: Call)
    requires Invariant(cfg, s)
    ensures Invariant(cfg, Step(cfg, s, c)) && NoDayLost(s, Step(cfg, s, c))
  {
    hide ClockInSpec, ClockOutSpec, NightlySpec, ComputeAttendanceOutcome;
    match c {
      case ClockIn(_, _, _) =>
        ClockingKeepsDays(cfg, s, c);
        HeldDaysSurvive(cfg, s, Step(cfg, s, c));
      case ClockOut(_, _, _) =>
        ClockingKeepsDays(cfg, s, c);
        HeldDaysSurvive(cfg, s, Step(cfg, s, c));
      case Nightly(active, now) =>
        NightlyKeepsDays(cfg, s, active, ToWatDay(now - DAY_MS));
        HeldDaysSurvive(cfg, s, Step(cfg, s, c));
      case Submit(staff, kind, start, end, t) =>
        SubmitKeepsDisjoint(cfg, s, staff, kind, start, end, t);
        HeldDaysSurvive(cfg, s, Step(cfg, s, c));
      case Approve(id, days) =>
        if ApproveLeaveSpec(cfg, s, id, days).Ok? {
          ApproveKeeps(cfg, s, id, days);
        }
      case Reject(id) =>
        if RejectLeaveSpec(s, id).Ok? {
          DecisionKeepsDisjoint(s.leaves, id, s.leaves[id].(status := Rejected));
        }
        HeldDaysSurvive(cfg, s, Step(cfg, s, c));
    }
  }

  lemma {:induction false} LeaveOverRuns(cfg: Config, s: State, calls: seq<Call>)
    requires Invariant(cfg, s)
    ensures Invariant(cfg, Run(cfg, s, calls)) && NoDayLost(s, Run(cfg, s, calls))
    decreases |calls|
  {
    if calls != [] {
      StepKeeps(cfg, s, calls[0]);
      LeaveOverRuns(cfg, Step(cfg, s, calls[0]), calls[1..]);
    }
  }

  /** In every run, no two open leave requests of one staff member share a day. */
  lemma OpenLeavesAreDisjoint(cfg: Config, calls: seq<Call>, i: nat, j: nat, d: Day)
    requires i < j < |Run(cfg, EMPTY, calls).leaves|
    ensures var s := Run(cfg, EMPTY, calls);
            var a, b := s.leaves[i], s.leaves[j];
            a.staff == b.staff && a.status != Rejected && b.status != Rejected ==> !(a.Covers(d) && b.Covers(d))
  {
    LeaveOverRuns(cfg, EMPTY, calls);
    var s := Run(cfg, EMPTY, calls);
    assert !Clash(s.leaves[i], s.leaves[j]);
  }

  /** In every run, each day of an approval that was carried through has its record, and it stays ON_LEAVE. */
  lemma ApprovedDaysStayOnLeave(cfg: Config, before: seq<Call>, calls: seq<Call>, i: nat, d: Day)
    requires i < |Run(cfg, EMPTY, before).leaves|
    requires var l := Run(cfg, EMPTY, before).leaves[i];
             l.status == Approved && l.applied && IsDayType(l.kind) && l.staff in cfg.staff && l.Covers(d)
    ensures var s := Run(cfg, EMPTY, before);
            var key := (s.leaves[i].staff, d);
            && key in s.records && s.records[key].status == AS.OnLeave
            && key in Run(cfg, s, calls).records && Run(cfg, s, calls).records[key].status == AS.OnLeave
  {
    LeaveOverRuns(cfg, EMPTY, before);
    var s := Run(cfg, EMPTY, before);
    assert DayHeldBy(cfg, s.leaves[i], d);
    LeaveOverRuns(cfg, s, calls);
    assert IsOnLeave(s, s.leaves[i].staff, d);
  }

  // ---- What the day costs ----

  /** The job adds the absent fee and never takes the late penalty back. */
  lemma NightlyKeepsLatePenalty(cfg: Config, leaves: seq<Leave>, staff: Id, d: Day, r: Record)
    requires staff in cfg.staff
    ensures var after := NightlyRule(cfg, leaves, staff, d, Some(r)).value;
            && after.latePenalty == r.latePenalty
            && (r.status != AS.Absent ==>
                  (after.status == AS.Absent && after.latePenalty.Some? && after.absentFee.Some?
                   <==> NeverCheckedOut(r) && r.latePenalty.Some? && AbsentFee(cfg, staff, d).Some?))
  {
  }

  /** A freshly clocked-in record carries a penalty only when LATE. */
  lemma OnlyLateIsPenalized(cfg: Config, leaves: seq<Leave>, staff: Id, d: Day, checkInAt: int)
    requires staff in cfg.staff
    ensures var o := ComputeAttendanceOutcome(cfg, leaves, staff, d, checkInAt);
            && (o.latePenalty.Some? ==> o.status == AS.Late)
            && (o.status == AS.Late <==> o.lateMinutes.Some?)
            && o.status != AS.Absent && o.status != AS.OnLeave
  {
  }

  // ---- Lateness ----

  /** When a check-in is late: strictly past the grace deadline of a scored day, without permission. */
  predicate IsLate(cfg: Config, leaves: seq<Leave>, staff: Id, d: Day, checkInAt: int)
    requires staff in cfg.staff
  {
    ComputeAttendanceOutcome(cfg, leaves, staff, d, checkInAt).status == AS.Late
  }

  /** A day's start of lateness does not depend on the check-in. */
  function Deadline(cfg: Config, staff: Id, d: Day): Option<int>
    requires staff in cfg.staff
  {
    var exception := ExceptionOn(cfg, staff, d);
    var effective := ResolveEffectiveDay(cfg.staff[staff].calendar, d);
    var openTime := if exception.Some? && exception.value.openTime.Some? then exception.value.openTime
                    else effective.resumeTime;
    if exception.Some? && exception.value.isClosed then None
    else if exception.None? && effective.dayType == Off then None
    else if openTime.None? then None
    else Some(WatDateAtTime(d, openTime.value) + cfg.staff[staff].graceMinutes * MINUTE_MS)
  }

  lemma LateIff(cfg: Config, leaves: seq<Leave>, staff: Id, d: Day, checkInAt: int)
    requires staff in cfg.staff
    ensures IsLate(cfg, leaves, staff, d, checkInAt)
       <==> Deadline(cfg, staff, d).Some? && checkInAt > Deadline(cfg, staff, d).value
            && !HasPermission(leaves, staff, LateArrival, d)
  {
  }

  /** The minutes charged: rounded from the scheduled start, less the grace period. */
  function Penalized(cfg: Config, leaves: seq<Leave>, staff: Id, d: Day, checkInAt: int): int
    requires staff in cfg.staff && IsLate(cfg, leaves, staff, d, checkInAt)
  {
    LateMinutesGiven(cfg, leaves, staff, d, checkInAt) - cfg.staff[staff].graceMinutes
  }

  function LateMinutesGiven(cfg: Config, leaves: seq<Leave>, staff: Id, d: Day, checkInAt: int): int
    requires staff in cfg.staff && IsLate(cfg, leaves, staff, d, checkInAt)
  {
    OnlyLateIsPenalized(cfg, leaves, staff, d, checkInAt);
    ComputeAttendanceOutcome(cfg, leaves, staff, d, checkInAt).lateMinutes.value
  }

  lemma LateMinutesAreRounded(cfg: Config, leaves: seq<Leave>, staff: Id, d: Day, checkInAt: int)
    requires staff in cfg.staff && IsLate(cfg, leaves, staff, d, checkInAt)
    ensures Deadline(cfg, staff, d).Some?
    ensures LateMinutesGiven(cfg, leaves, staff, d, checkInAt)
         == RoundedMinutes(checkInAt - Deadline(cfg, staff, d).value + cfg.staff[staff].graceMinutes * MINUTE_MS)
    ensures ComputeAttendanceOutcome(cfg, leaves, staff, d, checkInAt).latePenalty
         == LatePenalty(cfg, LateMinutesGiven(cfg, leaves, staff, d, checkInAt), cfg.staff[staff].graceMinutes)
  {
    hide LatePenalty, RoundedMinutes, ResolveEffectiveDay, HasPermission;
  }

  lemma RoundedShift(ms: int, minutes: int)
    ensures RoundedMinutes(ms + minutes * MINUTE_MS) == RoundedMinutes(ms) + minutes
  {
    assert (ms + minutes * 60000) as real / 60000.0 == ms as real / 60000.0 + minutes as real;
  }

  lemma RoundedNear(ms: int)
    ensures -30000 <= RoundedMinutes(ms) * MINUTE_MS - ms <= 30000
    ensures ms > 0 ==> RoundedMinutes(ms) >= 0
    ensures ms > 0 ==> (RoundedMinutes(ms) == 0 <==> ms < 30000)
  {
    var x := ms as real / 60000.0;
    var r := Round(x);
    assert r as real - 0.5 <= x < r as real + 0.5;
    assert x * 60000.0 == ms as real;
  }

  /** The charged minutes are the time past the grace deadline to within half a minute. */
  lemma PenalizedWithinHalfAMinute(cfg: Config, leaves: seq<Leave>, staff: Id, d: Day, checkInAt: int)
    requires staff in cfg.staff && IsLate(cfg, leaves, staff, d, checkInAt)
    ensures Deadline(cfg, staff, d).Some?
    ensures Penalized(cfg, leaves, staff, d, checkInAt) >= 0
    ensures var past := checkInAt - Deadline(cfg, staff, d).value;
            -30000 <= Penalized(cfg, leaves, staff, d, checkInAt) * MINUTE_MS - past <= 30000
  {
    LateIff(cfg, leaves, staff, d, checkInAt);
    LateMinutesAreRounded(cfg, leaves, staff, d, checkInAt);
    hide ComputeAttendanceOutcome, RoundedMinutes, Deadline;
    var past := checkInAt - Deadline(cfg, staff, d).value;
    RoundedShift(past, cfg.staff[staff].graceMinutes);
    RoundedNear(past);
  }

  /** LATE costs nothing exactly in the first half minute, or when penalties are off. */
  lemma LateButFreeIff(cfg: Config, leaves: seq<Leave>, staff: Id, d: Day, checkInAt: int)
    requires staff in cfg.staff && IsLate(cfg, leaves, staff, d, checkInAt)
    ensures Deadline(cfg, staff, d).Some?
    ensures ComputeAttendanceOutcome(cfg, leaves, staff, d, checkInAt).latePenalty.None?
       <==> cfg.penalty.None? || !cfg.penalty.value.isActive || checkInAt - Deadline(cfg, staff, d).value < 30000
  {
    LateIff(cfg, leaves, staff, d, checkInAt);
    LateMinutesAreRounded(cfg, leaves, staff, d, checkInAt);
    hide ComputeAttendanceOutcome, RoundedMinutes, Deadline;
    var past := checkInAt - Deadline(cfg, staff, d).value;
    RoundedShift(past, cfg.staff[staff].graceMinutes);
    RoundedNear(past);
  }

  function Owed(o: Outcome): int { if o.latePenalty.Some? then o.latePenalty.value else 0 }

  lemma OwedForMinutes(cfg: Config, late: int, grace: int)
    requires cfg.penalty.Some? && cfg.penalty.value.isActive
    ensures Owed(Outcome(AS.Late, Some(late), LatePenalty(cfg, late, grace)))
         == (if late >= grace then late - grace else 0) * cfg.penalty.value.amountPerMinute
  {
  }

  /** For one day, rate and no permission, arriving later never costs less. */
  lemma PenaltyMonotone(cfg: Config, leaves: seq<Leave>, staff: Id, d: Day, earlier: int, later: int)
    requires staff in cfg.staff && earlier <= later
    requires cfg.penalty.Some? && cfg.penalty.value.isActive && cfg.penalty.value.amountPerMinute >= 0
    ensures Owed(ComputeAttendanceOutcome(cfg, leaves, staff, d, earlier))
         <= Owed(ComputeAttendanceOutcome(cfg, leaves, staff, d, later))
  {
    LateIff(cfg, leaves, staff, d, earlier);
    LateIff(cfg, leaves, staff, d, later);
    OnlyLateIsPenalized(cfg, leaves, staff, d, earlier);
    OnlyLateIsPenalized(cfg, leaves, staff, d, later);
    if IsLate(cfg, leaves, staff, d, later) {
      LateMinutesAreRounded(cfg, leaves, staff, d, later);
      PenalizedWithinHalfAMinute(cfg, leaves, staff, d, later);
      var rate, grace := cfg.penalty.value.amountPerMinute, cfg.staff[staff].graceMinutes;
      var n := LateMinutesGiven(cfg, leaves, staff, d, later) - grace;
      OwedForMinutes(cfg, n + grace, grace);
      Scale(0, n, rate);
      if IsLate(cfg, leaves, staff, d, earlier) {
        LateMinutesAreRounded(cfg, leaves, staff, d, earlier);
        PenalizedWithinHalfAMinute(cfg, leaves, staff, d, earlier);
        var m := LateMinutesGiven(cfg, leaves, staff, d, earlier) - grace;
        OwedForMinutes(cfg, m + grace, grace);
        var base := grace * MINUTE_MS - Deadline(cfg, staff, d).value;
        RoundedMonotone(earlier + base, later + base);
        Scale(m, n, rate);
      }
    }
  }

  lemma RoundedMonotone(a: int, b: int)
    requires a <= b
    ensures RoundedMinutes(a) <= RoundedMinutes(b)
  {
    RoundMonotone(a as real / 60000.0, b as real / 60000.0);
  }

  lemma Scale(m: int, n: int, rate: int)
    requires m <= n && rate >= 0
    ensures m * rate <= n * rate
  {
  }

  // ---- Corrections ----

  /** A correction naming no status takes a leave day off leave. */
  lemma CorrectionEndsLeave(cfg: Config, leaves: seq<Leave>, staff: Id, d: Day, r: Record, c: Correction)
    requires staff in cfg.staff && r.status == AS.OnLeave && c.status.None? && (r.checkInAt.Some? || c.checkInAt.Some?)
    ensures CorrectRecord(cfg, leaves, staff, d, r, c).status != AS.OnLeave
  {
  }

  /** After a correction the day carries both charges only if it was absent with a penalty and no status was named. */
  lemma CorrectedTwiceChargedIff(cfg: Config, leaves: seq<Leave>, staff: Id, d: Day, r: Record, c: Correction)
    requires staff in cfg.staff
    ensures var after := CorrectRecord(cfg, leaves, staff, d, r, c);
            (after.latePenalty.Some? && after.absentFee.Some?
             <==> c.status.None? && r.status == AS.Absent && r.latePenalty.Some? && AbsentFee(cfg, staff, d).Some?)
  {
  }

  /** Correcting a clocked-in record without changing anything leaves its score as it was. */
  lemma EmptyCorrectionKeepsScore(cfg: Config, leaves: seq<Leave>, staff: Id, now: int)
    requires staff in cfg.staff
    ensures var d := ToWatDay(now);
            var r := NewRecord(Some(now), ComputeAttendanceOutcome(cfg, leaves, staff, d, now));
            CorrectRecord(cfg, leaves, staff, d, r, Correction(None, None, None)) == r
  {
  }
}

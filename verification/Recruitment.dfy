/** The recruitment pipeline: applications, interviews, approvals, offers and conversion to staff. */
module Recruitment {
  import opened Base

  datatype Status =
    | Draft | Submitted | UnderReview | Shortlisted | InterviewScheduled | InterviewCompleted
    | OfferExtended | Employed | NotSelected

  datatype Outcome = Pass | Fail | Hold

  /** The schema also names EXPIRED and WITHDRAWN, which no operation writes. */
  datatype OfferStatus = Sent | Accepted | Declined

  type Nin = string
  type Email = string

  datatype Application = Application(
    nin: Nin, email: Email, status: Status, outcome: Option<Outcome>, approved: bool, offer: Option<OfferStatus>,
    staff: Option<Id>)
  {
    /** What a new submission by the same person counts as still open or already hired. */
    predicate Active() { status != NotSelected && status != Draft }
  }

  /** A staff record belongs to the account with its email; it is inactive once exited or archived. */
  datatype Staff = Staff(email: Email, active: bool)

  datatype State = State(apps: seq<Application>, staff: seq<Staff>)
  {
    function With(id: Id, a: Application): State
      requires id < |apps|
    {
      this.(apps := apps[id := a])
    }
  }

  function AllowedNext(status: Status): set<Status> {
    match status
    case Draft => {Submitted}
    case Submitted => {UnderReview, NotSelected}
    case UnderReview => {Shortlisted, NotSelected}
    case Shortlisted => {NotSelected}
    case InterviewScheduled => {NotSelected}
    case InterviewCompleted => {NotSelected}
    case OfferExtended => {NotSelected}
    case Employed => {}
    case NotSelected => {}
  }

  // ---- The operations ----

  function NewApplication(nin: Nin, email: Email, status: Status): Application {
    Application(nin, email, status, None, false, None, None)
  }

  predicate HasActive(apps: seq<Application>, nin: Nin) {
    exists i :: 0 <= i < |apps| && apps[i].nin == nin && apps[i].Active()
  }

  /** A draft of the same person is turned into the submission; anything else makes a new one. */
  function SubmitSpec(s: State, nin: Nin, email: Email, draft: Option<Id>): Result<State> {
    if HasActive(s.apps, nin) then Err(Conflict)
    else if draft.Some? && draft.value < |s.apps| && s.apps[draft.value].status == Draft
            && s.apps[draft.value].nin == nin then
      Ok(s.With(draft.value, s.apps[draft.value].(email := email, status := Submitted)))
    else Ok(s.(apps := s.apps + [NewApplication(nin, email, Submitted)]))
  }

  function UpdateStatusSpec(s: State, id: Id, status: Status): Result<State> {
    if id >= |s.apps| then Err(NotFound)
    else if status == Employed then Err(BadRequest)
    else if status !in AllowedNext(s.apps[id].status) then Err(BadRequest)
    else Ok(s.With(id, s.apps[id].(status := status)))
  }

  function ScheduleSpec(s: State, id: Id): Result<State> {
    if id >= |s.apps| then Err(NotFound)
    else if s.apps[id].status != Shortlisted && s.apps[id].status != InterviewScheduled then Err(BadRequest)
    else Ok(s.With(id, s.apps[id].(status := InterviewScheduled)))
  }

  function OutcomeSpec(s: State, id: Id, outcome: Outcome, interviewerKnown: bool): Result<State> {
    if id >= |s.apps| then Err(NotFound)
    else if s.apps[id].status != InterviewScheduled then Err(BadRequest)
    else if !interviewerKnown then Err(NotFound)
    else
      var next := if outcome == Fail then NotSelected
                  else if outcome == Hold then InterviewScheduled else InterviewCompleted;
      Ok(s.With(id, s.apps[id].(outcome := Some(outcome), status := next)))
  }

  function ApproveSpec(s: State, id: Id): Result<State> {
    if id >= |s.apps| then Err(NotFound)
    else if s.apps[id].outcome != Some(Pass) || s.apps[id].approved then Err(BadRequest)
    else Ok(s.With(id, s.apps[id].(approved := true)))
  }

  /** The status is not looked at. */
  function OfferSpec(s: State, id: Id): Result<State> {
    if id >= |s.apps| then Err(NotFound)
    else if !s.apps[id].approved || s.apps[id].offer.Some? then Err(BadRequest)
    else Ok(s.With(id, s.apps[id].(offer := Some(Sent), status := OfferExtended)))
  }

  function RespondSpec(s: State, id: Id, decline: bool): Result<State> {
    if id >= |s.apps| || s.apps[id].offer.None? then Err(NotFound)
    else if s.apps[id].offer != Some(Sent) then Err(BadRequest)
    else if decline then Ok(s.With(id, s.apps[id].(offer := Some(Declined), status := NotSelected)))
    else Ok(s.With(id, s.apps[id].(offer := Some(Accepted))))
  }

  predicate NinStillOnStaff(s: State, id: Id)
    requires id < |s.apps|
  {
    exists i :: 0 <= i < |s.apps| && i != id && s.apps[i].nin == s.apps[id].nin && s.apps[i].staff.Some?
      && s.apps[i].staff.value < |s.staff| && s.staff[s.apps[i].staff.value].active
  }

  predicate EmailOnStaff(s: State, email: Email) {
    exists i :: 0 <= i < |s.staff| && s.staff[i].email == email
  }

  function ConvertError(s: State, id: Id): Option<Error> {
    if id >= |s.apps| then Some(NotFound)
    else if s.apps[id].status == Employed then Some(Conflict)
    else if !s.apps[id].approved || s.apps[id].offer != Some(Accepted) then Some(BadRequest)
    else if NinStillOnStaff(s, id) || EmailOnStaff(s, s.apps[id].email) then Some(Conflict)
    else None
  }

  /** The staff record and the application are written separately; the process may stop in between. */
  function ConvertSpec(s: State, id: Id, stopped: bool): Result<State> {
    var e := ConvertError(s, id);
    if e.Some? then Err(e.value)
    else
      var hired := s.(staff := s.staff + [Staff(s.apps[id].email, true)]);
      if stopped then Ok(hired)
      else Ok(hired.With(id, s.apps[id].(status := Employed, staff := Some(|s.staff|))))
  }

  // ---- The service ----

  ghost predicate Committed(spec: Result<State>, before: State, after: State, error: Option<Error>) {
    match spec
    case Ok(s) => after == s && error == None
    case Err(e) => after == before && error == Some(e)
  }

  class ApplicationService {
    var apps: seq<Application>
    var staff: seq<Staff>

    constructor ()
      ensures Tables() == State([], [])
    {
      apps, staff := [], [];
    }

    function Tables(): State
      reads this
    {
      State(apps, staff)
    }

    method Submit(nin: Nin, email: Email, draft: Option<Id>) returns (error: Option<Error>)
      modifies this
      ensures Committed(SubmitSpec(old(Tables()), nin, email, draft), old(Tables()), Tables(), error)
    {
      var i := 0;
      while i < |apps|
        invariant 0 <= i <= |apps|
        invariant forall j | 0 <= j < i :: !(apps[j].nin == nin && apps[j].Active())
      {
        if apps[i].nin == nin && apps[i].Active() {
          return Some(Conflict);
        }
        i := i + 1;
      }
      if draft.Some? && draft.value < |apps| && apps[draft.value].status == Draft && apps[draft.value].nin == nin {
        apps := apps[draft.value := apps[draft.value].(email := email, status := Submitted)];
      } else {
        apps := apps + [NewApplication(nin, email, Submitted)];
      }
      error := None;
    }

    method UpdateStatus(id: Id, status: Status) returns (error: Option<Error>)
      modifies this`apps
      ensures Committed(UpdateStatusSpec(old(Tables()), id, status), old(Tables()), Tables(), error)
    {
      if id >= |apps| {
        return Some(NotFound);
      }
      if status == Employed {
        return Some(BadRequest);
      }
      var allowedNext := AllowedNext(apps[id].status);
      if status !in allowedNext {
        return Some(BadRequest);
      }
      apps := apps[id := apps[id].(status := status)];
      error := None;
    }

    method ScheduleInterview(id: Id) returns (error: Option<Error>)
      modifies this`apps
      ensures Committed(ScheduleSpec(old(Tables()), id), old(Tables()), Tables(), error)
    {
      if id >= |apps| {
        return Some(NotFound);
      }
      var canSchedule := apps[id].status == Shortlisted || apps[id].status == InterviewScheduled;
      if !canSchedule {
        return Some(BadRequest);
      }
      apps := apps[id := apps[id].(status := InterviewScheduled)];
      error := None;
    }

    method RecordInterviewOutcome(id: Id, outcome: Outcome, interviewerKnown: bool) returns (error: Option<Error>)
      modifies this`apps
      ensures Committed(OutcomeSpec(old(Tables()), id, outcome, interviewerKnown), old(Tables()), Tables(), error)
    {
      if id >= |apps| {
        return Some(NotFound);
      }
      var status := apps[id].status;
      if status != InterviewScheduled {
        return Some(BadRequest);
      }
      if !interviewerKnown {
        return Some(NotFound);
      }
      var nextStatus := match outcome case Fail => NotSelected case Hold => status case Pass => InterviewCompleted;
      apps := apps[id := apps[id].(outcome := Some(outcome), status := nextStatus)];
      error := None;
    }

    method RecordEmploymentApproval(id: Id) returns (error: Option<Error>)
      modifies this`apps
      ensures Committed(ApproveSpec(old(Tables()), id), old(Tables()), Tables(), error)
    {
      if id >= |apps| {
        return Some(NotFound);
      }
      if apps[id].outcome != Some(Pass) {
        return Some(BadRequest);
      }
      if apps[id].approved {
        return Some(BadRequest);
      }
      apps := apps[id := apps[id].(approved := true)];
      error := None;
    }

    method GenerateOfferLetter(id: Id) returns (error: Option<Error>)
      modifies this`apps
      ensures Committed(OfferSpec(old(Tables()), id), old(Tables()), Tables(), error)
    {
      if id >= |apps| {
        return Some(NotFound);
      }
      if !apps[id].approved {
        return Some(BadRequest);
      }
      if apps[id].offer.Some? {
        return Some(BadRequest);
      }
      apps := apps[id := apps[id].(offer := Some(Sent), status := OfferExtended)];
      error := None;
    }

    method RespondToOffer(id: Id, decline: bool) returns (error: Option<Error>)
      modifies this`apps
      ensures Committed(RespondSpec(old(Tables()), id, decline), old(Tables()), Tables(), error)
    {
      if id >= |apps| || apps[id].offer.None? {
        return Some(NotFound);
      }
      if apps[id].offer.value != Sent {
        return Some(BadRequest);
      }
      apps := apps[id := apps[id].(offer := Some(if decline then Declined else Accepted))];
      if decline {
        apps := apps[id := apps[id].(status := NotSelected)];
      }
      error := None;
    }

    method ConvertToStaff(id: Id) returns (error: Option<Error>)
      modifies this
      ensures Committed(ConvertSpec(old(Tables()), id, false), old(Tables()), Tables(), error)
    {
      if id >= |apps| {
        return Some(NotFound);
      }
      if apps[id].status == Employed {
        return Some(Conflict);
      }
      if !apps[id].approved || apps[id].offer != Some(Accepted) {
        return Some(BadRequest);
      }
      for i := 0 to |apps|
        invariant forall j | 0 <= j < i && j != id && apps[j].nin == apps[id].nin && apps[j].staff.Some?
                    && apps[j].staff.value < |staff| :: !staff[apps[j].staff.value].active
      {
        if i != id && apps[i].nin == apps[id].nin && apps[i].staff.Some? && apps[i].staff.value < |staff| {
          if staff[apps[i].staff.value].active {
            return Some(Conflict);
          }
        }
      }
      if EmailOnStaff(Tables(), apps[id].email) {
        return Some(Conflict);
      }
      var record := |staff|;
      staff := staff + [Staff(apps[id].email, true)];
      apps := apps[id := apps[id].(status := Employed, staff := Some(record))];
      error := None;
    }
  }

  // ---- Runs ----

  /** Drafts come from identity checks; staff leave by other services. */
  datatype Call =
    | NewDraft(nin: Nin, email: Email)
    | Submit(nin: Nin, email: Email, draft: Option<Id>)
    | UpdateStatus(id: Id, status: Status)
    | Schedule(id: Id)
    | RecordOutcome(id: Id, outcome: Outcome, interviewerKnown: bool)
    | Approve(id: Id)
    | Offer(id: Id)
    | Respond(id: Id, decline: bool)
    | Convert(id: Id, stopped: bool)
    | Leave(ids: set<Id>)

  function OrUnchanged(s: State, r: Result<State>): State {
    match r case Ok(after) => after case Err(_) => s
  }

  function WithoutActive(staff: seq<Staff>, ids: set<Id>): (r: seq<Staff>)
    ensures |r| == |staff|
    ensures forall i: Id | i < |staff| :: r[i] == if i in ids then staff[i].(active := false) else staff[i]
  {
    seq(|staff|, (i: nat) requires i < |staff| => if i in ids then staff[i].(active := false) else staff[i])
  }

  function Step(s: State, c: Call): State {
    match c
    case NewDraft(nin, email) => s.(apps := s.apps + [NewApplication(nin, email, Draft)])
    case Submit(nin, email, draft) => OrUnchanged(s, SubmitSpec(s, nin, email, draft))
    case UpdateStatus(id, status) => OrUnchanged(s, UpdateStatusSpec(s, id, status))
    case Schedule(id) => OrUnchanged(s, ScheduleSpec(s, id))
    case RecordOutcome(id, outcome, known) => OrUnchanged(s, OutcomeSpec(s, id, outcome, known))
    case Approve(id) => OrUnchanged(s, ApproveSpec(s, id))
    case Offer(id) => OrUnchanged(s, OfferSpec(s, id))
    case Respond(id, decline) => OrUnchanged(s, RespondSpec(s, id, decline))
    case Convert(id, stopped) => OrUnchanged(s, ConvertSpec(s, id, stopped))
    case Leave(ids) => s.(staff := WithoutActive(s.staff, ids))
  }

  function Run(s: State, calls: seq<Call>): State
    decreases |calls|
  {
    if calls == [] then s else Run(Step(s, calls[0]), calls[1..])
  }

  const EMPTY := State([], [])

  // ---- One application ----

  /** What any reachable application satisfies. */
  predicate AppOk(a: Application) {
    && (a.outcome == Some(Pass) ==> a.status in {InterviewCompleted, OfferExtended, Employed, NotSelected})
    && (a.outcome == Some(Fail) ==> a.status == NotSelected)
    && (a.status == InterviewCompleted ==> a.outcome == Some(Pass))
    && (a.approved ==> a.outcome == Some(Pass))
    && (a.offer.Some? ==> a.approved)
    && (a.status == OfferExtended ==> a.offer.Some?)
    && (a.status == Employed ==> a.offer == Some(Accepted))
    && (a.offer == Some(Declined) ==> a.status == NotSelected)
    && (a.staff.Some? ==> a.status == Employed)
  }

  /** How an application may have changed: what is final stays. */
  predicate Advances(a: Application, b: Application) {
    && b.nin == a.nin
    && (a.status != Draft ==> b.email == a.email && b.status != Draft)
    && (a.outcome == Some(Pass) ==> b.outcome == Some(Pass))
    && (a.status == Employed ==> b == a)
    && (a.offer == Some(Declined) ==> b == a)
    && (a.status == NotSelected ==> b.outcome == a.outcome)
    && (a.status == NotSelected && b.status != NotSelected ==> a.outcome == Some(Pass) && a.offer != Some(Declined))
  }

  ghost predicate AllOk(s: State) { forall i | 0 <= i < |s.apps| :: AppOk(s.apps[i]) }

  ghost predicate AllAdvance(s: State, s2: State) {
    |s.apps| <= |s2.apps| && forall i | 0 <= i < |s.apps| :: Advances(s.apps[i], s2.apps[i])
  }

  lemma StepKeepsOk(s: State, c: Call)
    requires AllOk(s)
    ensures AllOk(Step(s, c))
  {
    var s2 := Step(s, c);
    forall i | 0 <= i < |s2.apps| ensures AppOk(s2.apps[i]) {
      assert i < |s.apps| ==> AppOk(s.apps[i]);
    }
  }

  lemma StepAdvances(s: State, c: Call)
    requires AllOk(s)
    ensures AllOk(Step(s, c)) && AllAdvance(s, Step(s, c))
  {
    StepKeepsOk(s, c);
    var s2 := Step(s, c);
    forall i | 0 <= i < |s.apps| ensures Advances(s.apps[i], s2.apps[i]) {
      assert AppOk(s.apps[i]);
    }
  }

  lemma {:induction false} RunAdvances(s: State, calls: seq<Call>)
    requires AllOk(s)
    ensures AllOk(Run(s, calls)) && AllAdvance(s, Run(s, calls))
    decreases |calls|
  {
    if calls != [] {
      var s1 := Step(s, calls[0]);
      StepAdvances(s, calls[0]);
      RunAdvances(s1, calls[1..]);
      var s2 := Run(s, calls);
      forall i | 0 <= i < |s.apps| ensures Advances(s.apps[i], s2.apps[i]) {
        assert Advances(s.apps[i], s1.apps[i]) && Advances(s1.apps[i], s2.apps[i]);
      }
    }
  }

  /** In every run, EMPLOYED means passed, approved and accepted. */
  lemma EmployedMeansEarned(calls: seq<Call>, id: Id)
    requires id < |Run(EMPTY, calls).apps| && Run(EMPTY, calls).apps[id].status == Employed
    ensures var a := Run(EMPTY, calls).apps[id]; a.outcome == Some(Pass) && a.approved && a.offer == Some(Accepted)
  {
    RunAdvances(EMPTY, calls);
    assert AppOk(Run(EMPTY, calls).apps[id]);
  }

  /** From any reachable point on: EMPLOYED and DECLINED freeze the application, and a PASS stays a PASS. */
  lemma FinalStatesStay(before: seq<Call>, calls: seq<Call>, id: Id)
    requires id < |Run(EMPTY, before).apps|
    ensures var s := Run(EMPTY, before);
            var s2 := Run(s, calls);
            && id < |s2.apps|
            && (s.apps[id].status == Employed ==> s2.apps[id] == s.apps[id])
            && (s.apps[id].offer == Some(Declined) ==> s.apps[id].status == NotSelected && s2.apps[id] == s.apps[id])
            && (s.apps[id].outcome == Some(Pass) ==> s2.apps[id].outcome == Some(Pass))
  {
    RunAdvances(EMPTY, before);
    var s := Run(EMPTY, before);
    RunAdvances(s, calls);
    assert AppOk(s.apps[id]) && Advances(s.apps[id], Run(s, calls).apps[id]);
  }

  // ---- Leaving NOT_SELECTED ----

  /** The ways back: an offer that was never made, or an acceptance that can still be converted. */
  predicate CanReturn(s: State, a: Application) {
    a.outcome == Some(Pass) && (a.offer.None? || (a.offer != Some(Declined) && !EmailOnStaff(s, a.email)))
  }

  lemma EmailStaysOnStaff(s: State, c: Call, email: Email)
    requires EmailOnStaff(s, email)
    ensures EmailOnStaff(Step(s, c), email)
  {
    var i :| 0 <= i < |s.staff| && s.staff[i].email == email;
    assert Step(s, c).staff[i].email == email;
  }

  lemma StuckStepStays(s: State, c: Call, id: Id)
    requires AllOk(s) && id < |s.apps| && s.apps[id].status == NotSelected && !CanReturn(s, s.apps[id])
    ensures var s2 := Step(s, c);
            id < |s2.apps| && s2.apps[id].status == NotSelected && !CanReturn(s2, s2.apps[id])
  {
    assert AppOk(s.apps[id]);
    StepAdvances(s, c);
    assert Advances(s.apps[id], Step(s, c).apps[id]);
    if EmailOnStaff(s, s.apps[id].email) {
      EmailStaysOnStaff(s, c, s.apps[id].email);
    }
  }

  lemma {:induction false} StuckStays(s: State, calls: seq<Call>, id: Id)
    requires AllOk(s) && id < |s.apps| && s.apps[id].status == NotSelected && !CanReturn(s, s.apps[id])
    ensures id < |Run(s, calls).apps| && Run(s, calls).apps[id].status == NotSelected
    decreases |calls|
  {
    if calls != [] {
      StepAdvances(s, calls[0]);
      StuckStepStays(s, calls[0], id);
      StuckStays(Step(s, calls[0]), calls[1..], id);
    }
  }

  function Ids(n: nat): (ids: set<Id>)
    ensures forall i: Id :: i in ids <==> i < n
  {
    if n == 0 then {} else Ids(n - 1) + {n - 1}
  }

  /** The calls that bring a returnable application back. */
  function WayBack(s: State, id: Id): seq<Call>
    requires id < |s.apps|
  {
    var everyone := Ids(|s.staff|);
    match s.apps[id].offer
    case None => [Approve(id), Offer(id)]
    case Some(Sent) => [Respond(id, false), Leave(everyone), Convert(id, false)]
    case Some(_) => [Leave(everyone), Convert(id, false)]
  }

  lemma RunTwo(s: State, a: Call, b: Call)
    ensures Run(s, [a, b]) == Step(Step(s, a), b)
  {
    hide Step;
    assert [a, b][1..] == [b] && [b][1..] == [];
    assert Run(Step(s, a), [b]) == Run(Step(Step(s, a), b), []);
  }

  lemma ConvertAfterLeave(s: State, id: Id, everyone: set<Id>)
    requires id < |s.apps| && s.apps[id].status == NotSelected && s.apps[id].approved
               && s.apps[id].offer == Some(Accepted)
    requires !EmailOnStaff(s, s.apps[id].email) && forall i: Id | i < |s.staff| :: i in everyone
    ensures Step(Step(s, Leave(everyone)), Convert(id, false)).apps[id].status == Employed
  {
  }

  lemma WayBackWorks(s: State, id: Id)
    requires AllOk(s) && id < |s.apps| && s.apps[id].status == NotSelected && CanReturn(s, s.apps[id])
    ensures id < |Run(s, WayBack(s, id)).apps| && Run(s, WayBack(s, id)).apps[id].status != NotSelected
  {
    assert AppOk(s.apps[id]);
    var everyone := Ids(|s.staff|);
    match s.apps[id].offer {
      case None =>
        RunTwo(s, Approve(id), Offer(id));
      case Some(Sent) =>
        var s1 := Step(s, Respond(id, false));
        assert WayBack(s, id)[1..] == [Leave(everyone), Convert(id, false)];
        RunTwo(s1, Leave(everyone), Convert(id, false));
        ConvertAfterLeave(s1, id, everyone);
      case Some(_) =>
        RunTwo(s, Leave(everyone), Convert(id, false));
        ConvertAfterLeave(s, id, everyone);
    }
  }

  /** NOT_SELECTED can be left at all exactly when the candidate passed and one of the two ways back is open. */
  lemma NotSelectedCanBeLeftIff(before: seq<Call>, id: Id)
    requires id < |Run(EMPTY, before).apps| && Run(EMPTY, before).apps[id].status == NotSelected
    ensures var s := Run(EMPTY, before);
            (exists calls :: Leaves(s, calls, id)) <==> CanReturn(s, s.apps[id])
  {
    RunAdvances(EMPTY, before);
    var s := Run(EMPTY, before);
    if CanReturn(s, s.apps[id]) {
      WayBackWorks(s, id);
      assert Leaves(s, WayBack(s, id), id);
    } else {
      forall calls ensures !Leaves(s, calls, id) {
        StuckStays(s, calls, id);
      }
    }
  }

  ghost predicate Leaves(s: State, calls: seq<Call>, id: Id) {
    id < |Run(s, calls).apps| && Run(s, calls).apps[id].status != NotSelected
  }

  /** Turned down after a pass, then approved and given an offer all the same. */
  const TURNED_DOWN: seq<Call> := [
    Submit("1", "a", None), UpdateStatus(0, UnderReview), UpdateStatus(0, Shortlisted), Schedule(0),
    RecordOutcome(0, Pass, true), UpdateStatus(0, NotSelected)]

  const REJECTED := State([Application("1", "a", NotSelected, Some(Pass), false, None, None)], [])

  const CANDIDATE := NewApplication("1", "a", Submitted)

  function Only(a: Application): State { State([a], []) }

  lemma Interviewed()
    ensures Step(EMPTY, TURNED_DOWN[0]) == Only(CANDIDATE)
    ensures Step(Only(CANDIDATE), TURNED_DOWN[1]) == Only(CANDIDATE.(status := UnderReview))
    ensures Step(Only(CANDIDATE.(status := UnderReview)), TURNED_DOWN[2]) == Only(CANDIDATE.(status := Shortlisted))
  {
  }

  lemma PassedAndTurnedDown()
    ensures Step(Only(CANDIDATE.(status := Shortlisted)), TURNED_DOWN[3])
         == Only(CANDIDATE.(status := InterviewScheduled))
    ensures Step(Only(CANDIDATE.(status := InterviewScheduled)), TURNED_DOWN[4])
         == Only(CANDIDATE.(status := InterviewCompleted, outcome := Some(Pass)))
    ensures Step(Only(CANDIDATE.(status := InterviewCompleted, outcome := Some(Pass))), TURNED_DOWN[5]) == REJECTED
  {
  }

  lemma RunThree(s: State, calls: seq<Call>)
    requires |calls| >= 3
    ensures Run(s, calls) == Run(Step(Step(Step(s, calls[0]), calls[1]), calls[2]), calls[3..])
  {
    hide Step;
    assert calls[1..][1..] == calls[2..] && calls[2..][1..] == calls[3..];
    assert Run(Step(s, calls[0]), calls[1..]) == Run(Step(Step(s, calls[0]), calls[1]), calls[2..]);
  }

  lemma TurnedDown()
    ensures Run(EMPTY, TURNED_DOWN) == REJECTED
  {
    Interviewed();
    PassedAndTurnedDown();
    hide Step, REJECTED;
    var calls := TURNED_DOWN;
    RunThree(EMPTY, calls);
    RunThree(Only(CANDIDATE.(status := Shortlisted)), calls[3..]);
    assert calls[3..][3..] == [];
  }

  const APPROVED_LATE := State([Application("1", "a", NotSelected, Some(Pass), true, None, None)], [])

  const OFFERED_LATE := State([Application("1", "a", OfferExtended, Some(Pass), true, Some(Sent), None)], [])

  lemma OfferedAfterAll()
    ensures Step(REJECTED, Approve(0)) == APPROVED_LATE && Step(APPROVED_LATE, Offer(0)) == OFFERED_LATE
  {
  }

  /** From empty tables: NOT_SELECTED is reached, and left again by an approval and an offer. */
  lemma NotSelectedLeftReachable()
    ensures Run(EMPTY, TURNED_DOWN) == REJECTED && REJECTED.apps[0].status == NotSelected
    ensures Run(REJECTED, [Approve(0), Offer(0)]) == OFFERED_LATE && OFFERED_LATE.apps[0].status == OfferExtended
  {
    TurnedDown();
    OfferedAfterAll();
    RunTwo(REJECTED, Approve(0), Offer(0));
    hide Run, Step;
  }

  // ---- One person, one staff record; one open application ----

  predicate OnActiveStaff(s: State, i: Id)
    requires i < |s.apps|
  {
    s.apps[i].staff.Some? && s.apps[i].staff.value < |s.staff| && s.staff[s.apps[i].staff.value].active
  }

  /** Staff links are real, and no identity number has two applications on active staff. */
  ghost predicate OneStaffPerNin(s: State) {
    && (forall i: Id | i < |s.apps| && s.apps[i].staff.Some? :: s.apps[i].staff.value < |s.staff|)
    && (forall i: Id, j: Id | i < |s.apps| && j < |s.apps| && i != j && s.apps[i].nin == s.apps[j].nin ::
          !(OnActiveStaff(s, i) && OnActiveStaff(s, j)))
  }

  lemma ConvertKeepsOneStaff(s: State, id: Id, stopped: bool)
    requires OneStaffPerNin(s) && ConvertSpec(s, id, stopped).Ok?
    ensures OneStaffPerNin(ConvertSpec(s, id, stopped).value)
  {
    var s2 := ConvertSpec(s, id, stopped).value;
    forall i: Id | i < |s.apps| && i != id ensures OnActiveStaff(s2, i) == OnActiveStaff(s, i) {
    }
    forall i: Id, j: Id | i < |s2.apps| && j < |s2.apps| && i != j && s2.apps[i].nin == s2.apps[j].nin
      ensures !(OnActiveStaff(s2, i) && OnActiveStaff(s2, j))
    {
      assert i != id ==> OnActiveStaff(s2, i) == OnActiveStaff(s, i);
      assert j != id ==> OnActiveStaff(s2, j) == OnActiveStaff(s, j);
      if !stopped && (i == id || j == id) {
        var other := if i == id then j else i;
        assert !NinStillOnStaff(s, id);
        assert !OnActiveStaff(s, other);
      }
    }
  }

  lemma OthersKeepOneStaff(s: State, s2: State)
    requires OneStaffPerNin(s) && |s.apps| <= |s2.apps| && |s.staff| == |s2.staff|
    requires forall i: Id | i < |s.staff| :: s2.staff[i].active ==> s.staff[i].active
    requires forall i: Id | i < |s.apps| :: s2.apps[i].nin == s.apps[i].nin && s2.apps[i].staff == s.apps[i].staff
    requires forall i: Id | |s.apps| <= i < |s2.apps| :: s2.apps[i].staff.None?
    ensures OneStaffPerNin(s2)
  {
  }

  lemma {:induction false} OneStaffPerNinOverRuns(s: State, calls: seq<Call>)
    requires OneStaffPerNin(s)
    ensures OneStaffPerNin(Run(s, calls))
    decreases |calls|
  {
    if calls != [] {
      var c := calls[0];
      if c.Convert? && ConvertSpec(s, c.id, c.stopped).Ok? {
        ConvertKeepsOneStaff(s, c.id, c.stopped);
      } else {
        OthersKeepOneStaff(s, Step(s, c));
      }
      OneStaffPerNinOverRuns(Step(s, c), calls[1..]);
    }
  }

  /** Accepted, not converted, and the person's account already has a staff record. */
  predicate Unconvertible(s: State, id: Id) {
    && id < |s.apps| && s.apps[id].offer == Some(Accepted) && s.apps[id].status != Employed
         && s.apps[id].status != Draft
    && EmailOnStaff(s, s.apps[id].email)
  }

  lemma {:induction false} UnconvertibleStays(s: State, calls: seq<Call>, id: Id)
    requires AllOk(s) && Unconvertible(s, id)
    ensures Unconvertible(Run(s, calls), id)
    decreases |calls|
  {
    if calls != [] {
      StepAdvances(s, calls[0]);
      assert AppOk(s.apps[id]) && Advances(s.apps[id], Step(s, calls[0]).apps[id]);
      EmailStaysOnStaff(s, calls[0], s.apps[id].email);
      UnconvertibleStays(Step(s, calls[0]), calls[1..], id);
    }
  }

  /** A conversion stopped after the staff record was written can never be completed: every retry is refused. */
  lemma InterruptedConversionSticks(s: State, id: Id, calls: seq<Call>)
    requires AllOk(s) && ConvertSpec(s, id, true).Ok?
    ensures var s2 := Run(ConvertSpec(s, id, true).value, calls);
            id < |s2.apps| && s2.apps[id].status != Employed && ConvertError(s2, id) == Some(Conflict)
  {
    var s1 := ConvertSpec(s, id, true).value;
    assert s1.staff[|s.staff|].email == s.apps[id].email;
    assert AppOk(s.apps[id]);
    UnconvertibleStays(s1, calls, id);
    RunAdvances(s1, calls);
    assert AppOk(Run(s1, calls).apps[id]);
  }

  ghost predicate OneOpenPerNin(s: State) {
    forall i: Id, j: Id | i < |s.apps| && j < |s.apps| && i != j && s.apps[i].nin == s.apps[j].nin ::
      !(s.apps[i].Active() && s.apps[j].Active())
  }

  /**
   * Calls other than a submission that make an application count as open again: a draft set to
   * SUBMITTED, a first offer after the approval, a conversion after the acceptance.
   */
  predicate Revives(s: State, c: Call, id: Id) {
    && id < |s.apps| && !s.apps[id].Active()
    && match c
       case UpdateStatus(i, status) => i == id && s.apps[id].status == Draft && status == Submitted
       case Offer(i) => i == id && s.apps[id].approved && s.apps[id].offer.None?
       case Convert(i, stopped) =>
         && i == id && !stopped && s.apps[id].approved && s.apps[id].offer == Some(Accepted)
         && !NinStillOnStaff(s, id) && !EmailOnStaff(s, s.apps[id].email)
       case _ => false
  }

  /**
   * Submissions keep a person to one open application, but a step loses that exactly when it
   * revives a draft or a rejected application while another one of theirs is open.
   */
  lemma OneOpenLostIff(s: State, c: Call)
    requires AllOk(s) && OneOpenPerNin(s)
    ensures OneOpenPerNin(Step(s, c))
       <==> !(exists id: Id, j: Id ::
                Revives(s, c, id) && j < |s.apps| && j != id && s.apps[j].nin == s.apps[id].nin && s.apps[j].Active())
  {
    if id: Id, j: Id :|
         Revives(s, c, id) && j < |s.apps| && j != id && s.apps[j].nin == s.apps[id].nin && s.apps[j].Active()
    {
      RevivalOpens(s, c, id, j);
    } else {
      var s2 := Step(s, c);
      forall i: Id, j: Id | i < |s2.apps| && j < |s2.apps| && i != j && s2.apps[i].nin == s2.apps[j].nin
        ensures !(s2.apps[i].Active() && s2.apps[j].Active())
      {
        if s2.apps[i].Active() && s2.apps[j].Active() {
          hide Step, Revives;
          StepOpens(s, c, i);
          StepOpens(s, c, j);
        }
      }
    }
  }

  lemma RevivalOpens(s: State, c: Call, id: Id, j: Id)
    requires AllOk(s) && Revives(s, c, id) && j < |s.apps| && j != id
    ensures Step(s, c).apps[id].Active() && Step(s, c).apps[id].nin == s.apps[id].nin && Step(s, c).apps[j] == s.apps[j]
  {
  }

  /** An application is open after a step only if it was before, was revived, or was just submitted. */
  lemma StepOpens(s: State, c: Call, i: Id)
    requires AllOk(s) && i < |Step(s, c).apps| && Step(s, c).apps[i].Active()
    ensures i < |s.apps| ==> s.apps[i].nin == Step(s, c).apps[i].nin
    ensures || (i < |s.apps| && (s.apps[i].Active() || Revives(s, c, i)))
            || (c.Submit? && SubmitSpec(s, c.nin, c.email, c.draft).Ok? && Step(s, c).apps[i].nin == c.nin
                && forall j: Id | j < |Step(s, c).apps| && j != i :: j < |s.apps| && Step(s, c).apps[j] == s.apps[j])
  {
    if i < |s.apps| {
      assert AppOk(s.apps[i]);
    }
  }

  /** A draft is submitted by an administrator beside the person's own later submission. */
  const REVIVED_DRAFT: seq<Call> := [NewDraft("1", "a"), Submit("1", "a", None), UpdateStatus(0, Submitted)]

  /** From empty tables: one person, two open applications. */
  lemma TwoOpenApplicationsReachable()
    ensures Run(EMPTY, REVIVED_DRAFT).apps == [NewApplication("1", "a", Submitted), NewApplication("1", "a", Submitted)]
    ensures !OneOpenPerNin(Run(EMPTY, REVIVED_DRAFT))
  {
    var calls := REVIVED_DRAFT;
    var draft, open := NewApplication("1", "a", Draft), NewApplication("1", "a", Submitted);
    var s1 := State([draft], []);
    var s2 := State([draft, open], []);
    var s3 := State([open, open], []);
    assert Step(EMPTY, calls[0]) == s1 && Step(s1, calls[1]) == s2 && Step(s2, calls[2]) == s3;
    hide Step;
    assert calls[1..][1..] == calls[2..] && calls[2..][1..] == [];
    assert Run(s2, calls[2..]) == Run(s3, []);
    assert Run(s1, calls[1..]) == Run(s2, calls[2..]);
    assert s3.apps[0].Active() && s3.apps[1].Active();
  }
}

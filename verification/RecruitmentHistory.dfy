/** What an application carries, traced to the calls that put it there; and the whole way from submission to hire. */
module RecruitmentHistory {
  import opened Base
  import opened Recruitment

  // ---- What is on an application, and which call put it there ----

  /** What an application can carry for good. */
  datatype Mark = Passed | ApprovedToHire | Offered | OfferAccepted | OfferDeclined | Hired

  predicate Carries(m: Mark, a: Application) {
    match m
    case Passed => a.outcome == Some(Pass)
    case ApprovedToHire => a.approved
    case Offered => a.offer.Some?
    case OfferAccepted => a.offer == Some(Accepted)
    case OfferDeclined => a.offer == Some(Declined)
    case Hired => a.status == Employed && a.staff.Some?
  }

  /** The call puts the mark on the application, told from the state before it. */
  predicate Puts(m: Mark, s: State, c: Call, id: Id)
    requires id < |s.apps|
  {
    var a := s.apps[id];
    match m
    case Passed => c == RecordOutcome(id, Pass, true) && a.status == InterviewScheduled
    case ApprovedToHire => c == Approve(id) && a.outcome == Some(Pass)
    case Offered => c == Offer(id) && a.approved
    case OfferAccepted => c == Respond(id, false) && a.offer == Some(Sent)
    case OfferDeclined => c == Respond(id, true) && a.offer == Some(Sent)
    case Hired =>
      && c == Convert(id, false) && a.status != Employed && a.approved && a.offer == Some(Accepted)
      && (forall i | 0 <= i < |s.staff| :: s.staff[i].email != a.email)
      && (forall i | 0 <= i < |s.apps| && i != id && s.apps[i].nin == a.nin && s.apps[i].staff.Some?
            && s.apps[i].staff.value < |s.staff| :: !s.staff[s.apps[i].staff.value].active)
  }

  lemma StepPuts(s: State, c: Call, m: Mark, id: Id)
    requires AllOk(s) && id < |s.apps|
    ensures var s2 := Step(s, c);
            id < |s2.apps| && (Carries(m, s2.apps[id]) <==> Carries(m, s.apps[id]) || Puts(m, s, c, id))
  {
    assert AppOk(s.apps[id]);
  }

  lemma NewAreUnmarked(s: State, c: Call, m: Mark, id: Id)
    requires |s.apps| <= id < |Step(s, c).apps|
    ensures !Carries(m, Step(s, c).apps[id])
  {
  }

  /** The i-th call of the run from empty tables puts the mark there. */
  predicate PutAt(calls: seq<Call>, m: Mark, id: Id, i: nat)
    requires i < |calls|
  {
    var s := Run(EMPTY, calls[..i]);
    id < |s.apps| && Puts(m, s, calls[i], id)
  }

  lemma {:induction false} RunAppend(s: State, calls: seq<Call>, c: Call)
    ensures Run(s, calls + [c]) == Step(Run(s, calls), c)
    decreases |calls|
  {
    hide Step;
    if calls == [] {
      assert [c][1..] == [] && [] + [c] == [c];
    } else {
      assert (calls + [c])[1..] == calls[1..] + [c];
      RunAppend(Step(s, calls[0]), calls[1..], c);
    }
  }

  lemma PutGrows(calls: seq<Call>, m: Mark, id: Id, n: nat)
    requires |calls| == n + 1
    ensures (exists i | 0 <= i < |calls| :: PutAt(calls, m, id, i))
       <==> (exists i | 0 <= i < n :: PutAt(calls[..n], m, id, i)) || PutAt(calls, m, id, n)
  {
    var before := calls[..n];
    forall i | 0 <= i < n ensures PutAt(before, m, id, i) <==> PutAt(calls, m, id, i) {
      assert before[..i] == calls[..i];
    }
    hide PutAt;
  }

  /**
   * In every run an application carries a mark - a pass, the approval, an offer, its acceptance or its
   * refusal, the hire - exactly when some call met the conditions for it: none is taken back.
   */
  lemma {:induction false} MarkedIffPut(calls: seq<Call>, m: Mark, id: Id)
    requires id < |Run(EMPTY, calls).apps|
    ensures Carries(m, Run(EMPTY, calls).apps[id]) <==> exists i | 0 <= i < |calls| :: PutAt(calls, m, id, i)
    decreases |calls|
  {
    if calls != [] {
      var n := |calls| - 1;
      var before, c := calls[..n], calls[n];
      assert calls == before + [c];
      RunAppend(EMPTY, before, c);
      RunAdvances(EMPTY, before);
      PutGrows(calls, m, id, n);
      var s := Run(EMPTY, before);
      hide Run, Step, Carries, Puts;
      if id < |s.apps| {
        MarkedIffPut(before, m, id);
        StepPuts(s, c, m, id);
      } else {
        NewAreUnmarked(s, c, m, id);
        NotYetThere(calls, m, id, n);
      }
    }
  }

  lemma {:induction false} AppsOnlyGrow(s: State, calls: seq<Call>, i: nat)
    requires AllOk(s) && i <= |calls|
    ensures |Run(s, calls[..i]).apps| <= |Run(s, calls).apps|
    decreases |calls|
  {
    if i > 0 {
      StepAdvances(s, calls[0]);
      assert calls[..i][1..] == calls[1..][..i - 1];
      hide Step;
      AppsOnlyGrow(Step(s, calls[0]), calls[1..], i - 1);
    } else {
      RunAdvances(s, calls);
    }
  }

  lemma NotYetThere(calls: seq<Call>, m: Mark, id: Id, n: nat)
    requires n <= |calls| && id >= |Run(EMPTY, calls[..n]).apps|
    ensures forall i | 0 <= i <= n && i < |calls| :: !PutAt(calls, m, id, i)
  {
    forall i | 0 <= i <= n && i < |calls| ensures !PutAt(calls, m, id, i) {
      AppsOnlyGrow(EMPTY, calls[..n], i);
      assert calls[..n][..i] == calls[..i];
    }
  }

  // ---- One step along the pipeline at a time ----

  /** How far along the pipeline a status is. */
  function Rank(status: Status): nat {
    match status
    case Draft => 0
    case Submitted => 1
    case UnderReview => 2
    case Shortlisted => 3
    case InterviewScheduled => 4
    case InterviewCompleted => 5
    case OfferExtended => 6
    case Employed => 7
    case NotSelected => 8
  }

  /**
   * Up to the interview a call moves an application by one status at most, forward or out; an interview,
   * an offer and a hire come from their own calls only.
   */
  lemma OneStatusAtATime(s: State, c: Call, id: Id)
    requires AllOk(s) && id < |s.apps|
    ensures var a, b := s.apps[id].status, Step(s, c).apps[id].status;
            && id < |Step(s, c).apps|
            && (a != b && Rank(b) <= 5 ==> Rank(b) == Rank(a) + 1)
            && (a != b && b == InterviewScheduled ==> c == Schedule(id))
            && (a != b && b == InterviewCompleted ==> c == RecordOutcome(id, Pass, true))
            && (a != b && b == OfferExtended ==> c == Offer(id))
            && (a != b && b == Employed ==> c == Convert(id, false))
            && (a != b && b == NotSelected ==>
                  a != Draft && (c == UpdateStatus(id, NotSelected) || c == RecordOutcome(id, Fail, true)
                                 || c == Respond(id, true)))
  {
    assert AppOk(s.apps[id]);
  }

  /** Before its interview an application takes each next status when it is asked to, and can be turned down in any. */
  lemma NextStatusIsOpen(s: State, id: Id, known: bool)
    requires id < |s.apps|
    ensures var a := s.apps[id];
            && (Step(s, UpdateStatus(id, Submitted)).apps[id].status == Submitted
                <==> a.status == Draft || a.status == Submitted)
            && (Step(s, UpdateStatus(id, UnderReview)).apps[id].status == UnderReview
                <==> a.status == Submitted || a.status == UnderReview)
            && (Step(s, UpdateStatus(id, Shortlisted)).apps[id].status == Shortlisted
                <==> a.status == UnderReview || a.status == Shortlisted)
            && (Step(s, Schedule(id)).apps[id].status == InterviewScheduled
                <==> a.status == Shortlisted || a.status == InterviewScheduled)
            && (Step(s, UpdateStatus(id, NotSelected)).apps[id].status == NotSelected
                <==> a.status != Draft && a.status != Employed)
            && (Step(s, RecordOutcome(id, Hold, true)).apps[id].outcome == Some(Hold)
                <==> a.status == InterviewScheduled || a.outcome == Some(Hold))
            && (a.status == InterviewScheduled ==>
                  && Step(s, RecordOutcome(id, Hold, true)).apps[id] == a.(outcome := Some(Hold))
                  && Step(s, RecordOutcome(id, Fail, true)).apps[id] == a.(outcome := Some(Fail), status := NotSelected)
                  && Step(s, RecordOutcome(id, Pass, false)) == s)
  {
  }

  // ---- All the way ----

  /** Nobody of this name is in the process or on the staff. */
  predicate Unknown(s: State, nin: Nin, email: Email) {
    && (forall i | 0 <= i < |s.apps| && s.apps[i].nin == nin :: s.apps[i].status in {NotSelected, Draft}
                                                              && s.apps[i].staff.None?)
    && (forall i | 0 <= i < |s.staff| :: s.staff[i].email != email)
  }

  function Applied(nin: Nin, email: Email, status: Status, outcome: Option<Outcome>, approved: bool,
                   offer: Option<OfferStatus>): Application
  {
    Application(nin, email, status, outcome, approved, offer, None)
  }

  /**
   * A submission is taken exactly when the person has no open application and is not employed; it opens
   * their draft if one is named, or a new application.
   */
  lemma SubmissionTakenIff(s: State, nin: Nin, email: Email, draft: Option<Id>)
    ensures var r := SubmitSpec(s, nin, email, draft);
            && (r.Ok? <==> forall i | 0 <= i < |s.apps| && s.apps[i].nin == nin ::
                             s.apps[i].status in {NotSelected, Draft})
            && (r.Ok? ==>
                  var own := draft.Some? && draft.value < |s.apps| && s.apps[draft.value].status == Draft
                             && s.apps[draft.value].nin == nin;
                  && r.value.staff == s.staff
                  && (if own then
                        && |r.value.apps| == |s.apps|
                        && r.value.apps[draft.value] == s.apps[draft.value].(email := email, status := Submitted)
                      else
                        && |r.value.apps| == |s.apps| + 1
                        && r.value.apps[|s.apps|] == Applied(nin, email, Submitted, None, false, None))
                  && forall i | 0 <= i < |s.apps| && !(own && i == draft.value) :: r.value.apps[i] == s.apps[i])
  {
  }

  /** From a submission to the hire. */
  function AllTheWay(nin: Nin, email: Email, id: Id): seq<Call> {
    [Submit(nin, email, None), UpdateStatus(id, UnderReview), UpdateStatus(id, Shortlisted), Schedule(id),
     RecordOutcome(id, Pass, true), Approve(id), Offer(id), Respond(id, false), Convert(id, false)]
  }

  /** The tables with one more application, at its end. */
  function Joined(s: State, a: Application): State { s.(apps := s.apps + [a]) }

  lemma ToTheInterview(s: State, nin: Nin, email: Email)
    requires Unknown(s, nin, email)
    ensures var calls := AllTheWay(nin, email, |s.apps|);
            var s1 := Joined(s, Applied(nin, email, Submitted, None, false, None));
            var s2 := Joined(s, Applied(nin, email, UnderReview, None, false, None));
            var s3 := Joined(s, Applied(nin, email, Shortlisted, None, false, None));
            Step(s, calls[0]) == s1 && Step(s1, calls[1]) == s2 && Step(s2, calls[2]) == s3
  {
  }

  lemma ToTheApproval(s: State, nin: Nin, email: Email)
    ensures var calls := AllTheWay(nin, email, |s.apps|);
            var s3 := Joined(s, Applied(nin, email, Shortlisted, None, false, None));
            var s4 := Joined(s, Applied(nin, email, InterviewScheduled, None, false, None));
            var s5 := Joined(s, Applied(nin, email, InterviewCompleted, Some(Pass), false, None));
            var s6 := Joined(s, Applied(nin, email, InterviewCompleted, Some(Pass), true, None));
            Step(s3, calls[3]) == s4 && Step(s4, calls[4]) == s5 && Step(s5, calls[5]) == s6
  {
  }

  /** Employed, and linked to the staff record behind all others. */
  function HiredAs(s: State, nin: Nin, email: Email): State {
    State(s.apps + [Application(nin, email, Employed, Some(Pass), true, Some(Accepted), Some(|s.staff|))],
          s.staff + [Staff(email, true)])
  }

  lemma ToTheHire(s: State, nin: Nin, email: Email)
    requires Unknown(s, nin, email)
    ensures var calls := AllTheWay(nin, email, |s.apps|);
            var s6 := Joined(s, Applied(nin, email, InterviewCompleted, Some(Pass), true, None));
            var s7 := Joined(s, Applied(nin, email, OfferExtended, Some(Pass), true, Some(Sent)));
            var s8 := Joined(s, Applied(nin, email, OfferExtended, Some(Pass), true, Some(Accepted)));
            Step(s6, calls[6]) == s7 && Step(s7, calls[7]) == s8 && Step(s8, calls[8]) == HiredAs(s, nin, email)
  {
  }

  lemma RunThreeTimesThree(s: State, s3: State, s6: State, s9: State, calls: seq<Call>)
    requires |calls| == 9 && Step(Step(Step(s, calls[0]), calls[1]), calls[2]) == s3
    requires Step(Step(Step(s3, calls[3]), calls[4]), calls[5]) == s6
    requires Step(Step(Step(s6, calls[6]), calls[7]), calls[8]) == s9
    ensures Run(s, calls) == s9
  {
    hide Step;
    RunThree(s, calls);
    RunThree(s3, calls[3..]);
    assert calls[3..][3..] == calls[6..];
    RunThree(s6, calls[6..]);
    assert calls[6..][3..] == [];
  }

  /**
   * Somebody unknown who submits and is then waved through every stage ends up employed, with the one new
   * staff record of their own email, active and linked; nobody else's application or record changes.
   */
  lemma HiredAllTheWay(s: State, nin: Nin, email: Email)
    requires Unknown(s, nin, email)
    ensures Run(s, AllTheWay(nin, email, |s.apps|)) == HiredAs(s, nin, email)
  {
    ToTheInterview(s, nin, email);
    ToTheApproval(s, nin, email);
    ToTheHire(s, nin, email);
    hide Step, Unknown, HiredAs, Joined;
    RunThreeTimesThree(s, Joined(s, Applied(nin, email, Shortlisted, None, false, None)),
                       Joined(s, Applied(nin, email, InterviewCompleted, Some(Pass), true, None)),
                       HiredAs(s, nin, email), AllTheWay(nin, email, |s.apps|));
  }
}

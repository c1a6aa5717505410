/** Whom an approval request waits for, and what a decision leaves behind. */
module ApprovalRouting {
  import opened Base
  import opened Approval
  import opened ApprovalRuns

  /** The person holds, in this directory, the role of the chain's lowest stage. */
  predicate HoldsFirstStage(chain: Chain, dir: Directory, person: Id) {
    exists k :: k in chain && (forall j | j in chain :: k <= j)
                && person in dir.roles && chain[k] in dir.roles[person]
  }

  /** Without a chain: the approver asked for, else the branch's manager, else an administrator. */
  predicate IsNamed(dir: Directory, branch: Option<Id>, initialApprover: Option<Id>, person: Id) {
    if initialApprover.Some? then initialApprover.value == person
    else if branch.Some? && branch.value in dir.managers then dir.managers[branch.value] == person
    else dir.adminStaff == Some(person)
  }

  /**
   * A new request is the last row, PENDING and of the type, branch and submitter given; whoever holds the
   * role of the lowest stage may act on it, or without a chain the one person it was routed to, and
   * nobody else without elevation.
   */
  lemma NewRequestWaitsFor(s: State, dir: Directory, t: RequestType, branch: Option<Id>, submitter: Option<Id>,
                           initialApprover: Option<Id>, later: Directory, person: Id)
    ensures var s2, id := CreateSpec(s, dir, t, branch, submitter, initialApprover), |s.requests|;
            && |s2.requests| == id + 1 && s2.requests[..id] == s.requests && s2.chains == s.chains
            && s2.requests[id].requestType == t && s2.requests[id].branch == branch
            && s2.requests[id].submittedBy == submitter && s2.requests[id].status == Pending
            && (Actionable(s2, later, id, Some(person), false).Ok?
                <==> if s.ChainOf(t) != map[] then HoldsFirstStage(s.ChainOf(t), later, person)
                     else IsNamed(dir, branch, initialApprover, person))
            && Actionable(s2, later, id, None, true).Ok?
  {
    var chain := s.ChainOf(t);
    var first := FirstStage(chain);
    if HoldsFirstStage(chain, later, person) {
      var k :| k in chain && (forall j | j in chain :: k <= j)
        && person in later.roles && chain[k] in later.roles[person];
      assert first == Some(k);
    }
    hide FirstStage;
  }

  /** Reassigned: the new approver may act at once, everyone else only by elevation or the stage's role. */
  lemma ReassignedWaitsFor(s: State, dir: Directory, id: Id, actor: Option<Id>, elevated: bool, to: Id, reason: string,
                           later: Directory, person: Id)
    requires Actionable(s, dir, id, actor, elevated).Ok?
    ensures var r := ReassignSpec(s, dir, id, actor, elevated, to, reason);
            if to !in dir.staff then r == Err(NotFound)
            else
              && r.Ok? && id < |r.value.requests|
              && r.value.requests == s.requests[id := r.value.requests[id]] && r.value.chains == s.chains
              && r.value.requests[id].(approver := s.requests[id].approver) == s.requests[id]
              && (Actionable(r.value, later, id, Some(person), false).Ok?
                  <==> person == to || (s.requests[id].stageRole.Some? && person in later.roles
                                        && s.requests[id].stageRole.value in later.roles[person]))
              && Actionable(r.value, later, id, None, true).Ok?
  {
  }

  /** What each decision logs: one action, by the caller, with the approvers of a reassignment. */
  predicate Logs(s: State, op: Op, a: Action) {
    match op
    case Create(_, _, submitter, _) =>
      a.request == |s.requests| && a.actor == submitter && a.kind == Submitted && a.fromApprover == None
    case Approve(id, actor, _, comment) =>
      a == Action(id, actor, Approval, None, None, comment)
    case Reject(id, actor, _, comment) =>
      a == Action(id, actor, Rejection, None, None, comment)
    case Reassign(id, actor, _, to, comment) =>
      id < |s.requests| && a == Action(id, actor, Reassignment, s.requests[id].approver, Some(to), comment)
    case RequestMoreInfo(id, asker, _, comment) =>
      a == Action(id, Some(asker), MoreInfo, None, None, comment)
    case _ => false
  }

  /** A call that goes through logs its one action, chain edits and role deletions none; a refused call does nothing. */
  lemma CallsAreLogged(s: State, c: Call)
    ensures var s2 := Step(s, c);
            if Outcome(s, c).Err? then s2 == s
            else if c.op.SetChain? || c.op.DeleteRole? then s2.actions == s.actions
            else
              && |s2.actions| == |s.actions| + 1 && s2.actions[..|s.actions|] == s.actions
              && Logs(s, c.op, s2.actions[|s.actions|])
              && (c.op.Create? ==> s2.actions[|s.actions|].toApprover == s2.requests[|s.requests|].approver)
  {
    hide FirstStage, NextStage;
  }

  /** Rejected, or approved at the last stage: nobody may act any more, elevated or not. */
  lemma DecidedIsFinal(s: State, dir: Directory, id: Id, actor: Option<Id>, elevated: bool, comment: string,
                       later: Directory, other: Option<Id>, high: bool)
    requires Actionable(s, dir, id, actor, elevated).Ok?
    ensures var r := RejectSpec(s, dir, id, actor, elevated, comment);
            && r.Ok? && id < |r.value.requests| && r.value.requests[id] == s.requests[id].(status := Rejected)
            && r.value.requests == s.requests[id := r.value.requests[id]]
            && Actionable(r.value, later, id, other, high) == Err(BadRequest)
    ensures var r := ApproveSpec(s, dir, id, actor, elevated, comment);
            var order, chain := s.requests[id].stageOrder, s.ChainOf(s.requests[id].requestType);
            && r.Ok? && id < |r.value.requests| && r.value.requests == s.requests[id := r.value.requests[id]]
            && (if order.Some? && exists k :: k in chain && order.value < k then
                  && r.value.requests[id].status == s.requests[id].status
                  && r.value.requests[id].stageOrder.Some?
                  && var next := r.value.requests[id].stageOrder.value;
                     && next in chain && order.value < next && (forall k | k in chain && order.value < k :: next <= k)
                     && r.value.requests[id].stageRole == Some(chain[next])
                     && r.value.requests[id].approver == s.requests[id].approver
                else
                  && r.value.requests[id].status == Approved && r.value.requests[id].stageOrder.None?
                  && r.value.requests[id].approver == (if order.Some? then None else s.requests[id].approver)
                  && Actionable(r.value, later, id, other, high) == Err(BadRequest))
  {
    hide Least;
  }

  /** A deleted role is nobody's: no stage and no request waits for it, and nothing else changes. */
  lemma RoleIsGone(s: State, role: Id)
    ensures var s2 := DeleteRoleSpec(s, role);
            && s2.actions == s.actions && |s2.requests| == |s.requests|
            && (forall i: Id | i < |s.requests| ::
                  s2.requests[i] == if s.requests[i].stageRole == Some(role) then s.requests[i].(stageRole := None)
                                    else s.requests[i])
            && forall t, k :: (k in s2.ChainOf(t) <==> k in s.ChainOf(t) && s.ChainOf(t)[k] != role)
                              && (k in s2.ChainOf(t) ==> s2.ChainOf(t)[k] == s.ChainOf(t)[k])
  {
  }

  /** More information asked for: still the same people may act on it. */
  lemma AskingKeepsTheApprovers(s: State, dir: Directory, id: Id, asker: Id, elevated: bool, comment: string,
                                later: Directory, actor: Option<Id>, high: bool)
    requires Actionable(s, dir, id, Some(asker), elevated).Ok?
    ensures var r := MoreInfoSpec(s, dir, id, asker, elevated, comment);
            && r.Ok? && id < |r.value.requests| && r.value.requests == s.requests[id := r.value.requests[id]]
            && r.value.requests[id] == s.requests[id].(status := MoreInfoRequested)
            && (Actionable(r.value, later, id, actor, high).Ok? <==> Actionable(s, later, id, actor, high).Ok?)
  {
  }
}

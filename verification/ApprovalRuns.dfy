/** What the approval engine keeps over every sequence of calls and chain edits. */
module ApprovalRuns {
  import opened Base
  import opened Approval

  datatype Op =
    | Create(t: RequestType, branch: Option<Id>, submitter: Option<Id>, initialApprover: Option<Id>)
    | Approve(id: Id, actor: Option<Id>, elevated: bool, comment: string)
    | Reject(id: Id, actor: Option<Id>, elevated: bool, comment: string)
    | Reassign(id: Id, actor: Option<Id>, elevated: bool, to: Id, comment: string)
    | RequestMoreInfo(id: Id, asker: Id, elevated: bool, comment: string)
    | SetChain(t: RequestType, roleIds: seq<Id>)
    | DeleteRole(role: Id)

  /** One call, with the directory it happens to see. */
  datatype Call = Call(dir: Directory, op: Op)

  function Outcome(s: State, c: Call): Result<State> {
    match c.op
    case Create(t, branch, submitter, initial) => Ok(CreateSpec(s, c.dir, t, branch, submitter, initial))
    case Approve(id, actor, elevated, comment) => ApproveSpec(s, c.dir, id, actor, elevated, comment)
    case Reject(id, actor, elevated, comment) => RejectSpec(s, c.dir, id, actor, elevated, comment)
    case Reassign(id, actor, elevated, to, comment) => ReassignSpec(s, c.dir, id, actor, elevated, to, comment)
    case RequestMoreInfo(id, asker, elevated, comment) => MoreInfoSpec(s, c.dir, id, asker, elevated, comment)
    case SetChain(t, roleIds) => Ok(SetChainSpec(s, t, roleIds))
    case DeleteRole(role) => Ok(DeleteRoleSpec(s, role))
  }

  /** A call that throws leaves the tables as they were. */
  function Step(s: State, c: Call): State {
    match Outcome(s, c)
    case Ok(after) => after
    case Err(_) => s
  }

  function Run(s: State, calls: seq<Call>): State
    decreases |calls|
  {
    if calls == [] then s else Run(Step(s, calls[0]), calls[1..])
  }

  function Approvals(actions: seq<Action>, id: Id): nat {
    if actions == [] then 0
    else
      var last := actions[|actions| - 1];
      Approvals(actions[..|actions| - 1], id) + if last.request == id && last.kind == Approval then 1 else 0
  }

  lemma ApprovalsAppend(actions: seq<Action>, a: Action, id: Id)
    ensures Approvals(actions + [a], id)
         == Approvals(actions, id) + if a.request == id && a.kind == Approval then 1 else 0
  {
  }

  // ---- Progress of one request, whatever else happens ----

  /**
   * How a row may have moved while k approvals of it were recorded: closed rows are
   * frozen; an unstaged row is finished by its first approval; a staged row climbs by
   * at least one stage per approval and moves by nothing else.
   */
  ghost predicate RowAdvanced(r: Request, r2: Request, k: int) {
    && k >= 0
    && r2.requestType == r.requestType
    && (!r.Open() ==> k == 0 && r2.status == r.status && r2.stageOrder == r.stageOrder && r2.approver == r.approver)
    && (r.stageOrder.None? ==>
          r2.stageOrder.None? && k <= 1 && (k == 1 <==> r.Open() && r2.status == Approved))
    && (r.stageOrder.Some? && r2.stageOrder.Some? ==>
          r2.stageOrder.value >= r.stageOrder.value + k
          && (k == 0 ==> r2.stageOrder == r.stageOrder)
          && (r.Open() ==> r2.status != Approved))
    && (r.stageOrder.Some? && r2.stageOrder.None? ==> k >= 1 && r2.status == Approved)
  }

  ghost predicate Advanced(s: State, s2: State, id: Id)
    requires id < |s.requests|
  {
    && |s.requests| <= |s2.requests|
    && RowAdvanced(s.requests[id], s2.requests[id], Approvals(s2.actions, id) - Approvals(s.actions, id))
  }

  /** The four calls that decide on an open row: the row they leave and the action they log. */
  lemma DecisionShape(s: State, c: Call) returns (at: Id, row: Request, a: Action)
    requires Outcome(s, c).Ok? && !c.op.Create? && !c.op.SetChain? && !c.op.DeleteRole?
    ensures at < |s.requests| && s.requests[at].Open() && a.request == at
    ensures Step(s, c) == Logged(WithRequest(s, at, row), a)
    ensures RowAdvanced(s.requests[at], row, if a.kind == Approval then 1 else 0)
    ensures a.kind == Approval <==> c.op.Approve?
    ensures row.Open() ==> row.status == if a.kind == MoreInfo then MoreInfoRequested else s.requests[at].status
    ensures c.op.Approve? ==> at == c.op.id && row == ApprovedRow(s.requests[at], s.ChainOf(s.requests[at].requestType))
    ensures !c.op.Approve? ==> row.stageOrder == s.requests[at].stageOrder && row.stageRole == s.requests[at].stageRole
                               && row.status != Approved
  {
    at, row, a := c.op.id, Step(s, c).requests[c.op.id], Step(s, c).actions[|s.actions|];
  }

  lemma StepAdvances(s: State, c: Call, id: Id)
    requires id < |s.requests|
    ensures Advanced(s, Step(s, c), id)
  {
    var s2 := Step(s, c);
    if c.op.Create? {
      ApprovalsAppend(s.actions, s2.actions[|s.actions|], id);
    } else if c.op.SetChain? || c.op.DeleteRole? || Outcome(s, c).Err? {
      assert s2.actions == s.actions;
    } else {
      var at, row, a := DecisionShape(s, c);
      ApprovalsAppend(s.actions, a, id);
    }
  }

  lemma AdvancedTransitive(s: State, m: State, e: State, id: Id)
    requires id < |s.requests| && Advanced(s, m, id) && Advanced(m, e, id)
    ensures Advanced(s, e, id)
  {
  }

  /** Stage order only climbs, once or more per approval, and a decision is final, over any run and any chain edits. */
  lemma {:induction false} RunAdvances(s: State, calls: seq<Call>, id: Id)
    requires id < |s.requests|
    ensures Advanced(s, Run(s, calls), id)
    decreases |calls|
  {
    if calls != [] {
      var m := Step(s, calls[0]);
      StepAdvances(s, calls[0], id);
      RunAdvances(m, calls[1..], id);
      AdvancedTransitive(s, m, Run(s, calls), id);
    }
  }

  // ---- A chain left alone is walked stage by stage ----

  ghost function Rank(chain: Chain, order: int): nat {
    |set k | k in chain && k <= order|
  }

  lemma FirstRank(chain: Chain)
    requires chain != map[]
    ensures FirstStage(chain).Some? && Rank(chain, FirstStage(chain).value) == 1
  {
    var f := FirstStage(chain).value;
    assert (set k | k in chain && k <= f) == {f};
  }

  lemma NextRank(chain: Chain, order: int)
    requires order in chain
    ensures NextStage(chain, order).Some? ==> Rank(chain, NextStage(chain, order).value) == Rank(chain, order) + 1
    ensures NextStage(chain, order).None? ==> Rank(chain, order) == |chain|
    ensures NextStage(chain, order).Some? ==> Rank(chain, order) < |chain|
  {
    var next := NextStage(chain, order);
    var upTo := set k | k in chain && k <= order;
    if next.Some? {
      assert (set k | k in chain && k <= next.value) == upTo + {next.value};
      SubsetSize(upTo + {next.value}, chain.Keys);
    } else {
      assert upTo == chain.Keys;
    }
  }

  /** In a chain written by setChainStages the k-th stage is the one with order k. */
  lemma RankOfSetStages(roleIds: seq<Id>, order: int)
    requires 1 <= order <= |roleIds|
    ensures order in StagesFor(roleIds) && Rank(StagesFor(roleIds), order) == order
  {
    assert (set k | k in StagesFor(roleIds) && k <= order) == OneTo(order);
  }

  /** Approvals a request of this type takes: one per stage, or a single one without a chain. */
  function Needed(chain: Chain): nat {
    if chain == map[] then 1 else |chain|
  }

  ghost predicate AtItsStage(s: State, id: Id)
    requires id < |s.requests|
  {
    var r := s.requests[id];
    var chain := s.ChainOf(r.requestType);
    var k := Approvals(s.actions, id);
    && k <= Needed(chain)
    && (r.status == Approved <==> k == Needed(chain))
    && (chain == map[] || r.status == Approved ==> r.stageOrder.None?)
    && (chain != map[] && r.status != Approved ==>
          && r.stageOrder.Some? && r.stageOrder.value in chain
          && r.stageRole == Some(chain[r.stageOrder.value])
          && Rank(chain, r.stageOrder.value) == k + 1)
  }

  ghost predicate ChainInvariant(s: State, t: RequestType) {
    && (forall a | a in s.actions :: a.request < |s.requests|)
    && (forall id: Id | id < |s.requests| && s.requests[id].requestType == t :: AtItsStage(s, id))
  }

  lemma {:induction false} NoApprovalsYet(actions: seq<Action>, id: Id)
    requires forall a | a in actions :: a.request < id
    ensures Approvals(actions, id) == 0
  {
    if actions != [] {
      NoApprovalsYet(actions[..|actions| - 1], id);
    }
  }

  lemma CreateKeepsChainInvariant(s: State, c: Call, t: RequestType)
    requires ChainInvariant(s, t) && c.op.Create?
    ensures ChainInvariant(Step(s, c), t)
  {
    var s2 := Step(s, c);
    var n := |s.requests|;
    forall id: Id | id < |s2.requests| && s2.requests[id].requestType == t
      ensures AtItsStage(s2, id)
    {
      ApprovalsAppend(s.actions, s2.actions[|s.actions|], id);
      if id == n {
        NoApprovalsYet(s.actions, n);
        if s.ChainOf(t) != map[] {
          FirstRank(s.ChainOf(t));
          assert |s.ChainOf(t)| > 0;
        }
      } else {
        assert AtItsStage(s, id);
      }
    }
  }

  lemma DecisionKeepsChainInvariant(s: State, c: Call, t: RequestType)
    requires ChainInvariant(s, t)
    requires Outcome(s, c).Ok? && !c.op.Create? && !c.op.SetChain? && !c.op.DeleteRole?
    ensures ChainInvariant(Step(s, c), t)
  {
    var s2 := Step(s, c);
    var at, row, a := DecisionShape(s, c);
    forall id: Id | id < |s2.requests| && s2.requests[id].requestType == t
      ensures AtItsStage(s2, id)
    {
      ApprovalsAppend(s.actions, a, id);
      assert s.requests[id].requestType == t;
      assert AtItsStage(s, id);
      if id == at && s.requests[id].stageOrder.Some? {
        NextRank(s.ChainOf(t), s.requests[id].stageOrder.value);
      }
    }
  }

  lemma ChainEditKeepsChainInvariant(s: State, c: Call, t: RequestType)
    requires ChainInvariant(s, t) && (c.op.SetChain? || c.op.DeleteRole?)
    requires Step(s, c).ChainOf(t) == s.ChainOf(t)
    ensures ChainInvariant(Step(s, c), t)
  {
    var s2 := Step(s, c);
    forall id: Id | id < |s2.requests| && s2.requests[id].requestType == t
      ensures AtItsStage(s2, id)
    {
      assert s2.actions == s.actions && s.requests[id].requestType == t;
      assert AtItsStage(s, id);
      if c.op.DeleteRole? && s.requests[id].stageOrder.Some? && s.requests[id].status != Approved {
        var o := s.requests[id].stageOrder.value;
        assert o in s2.ChainOf(t) && s2.ChainOf(t)[o] != c.op.role;
      }
    }
  }

  /** Every call of the run leaves the chain of t as it is. */
  ghost predicate ChainKept(s: State, calls: seq<Call>, t: RequestType)
    decreases |calls|
  {
    calls == [] || (Step(s, calls[0]).ChainOf(t) == s.ChainOf(t) && ChainKept(Step(s, calls[0]), calls[1..], t))
  }

  lemma {:induction false} ChainInvariantOverRuns(s: State, calls: seq<Call>, t: RequestType)
    requires ChainInvariant(s, t) && ChainKept(s, calls, t)
    ensures ChainInvariant(Run(s, calls), t) && Run(s, calls).ChainOf(t) == s.ChainOf(t)
    decreases |calls|
  {
    if calls != [] {
      if calls[0].op.Create? {
        CreateKeepsChainInvariant(s, calls[0], t);
      } else if calls[0].op.SetChain? || calls[0].op.DeleteRole? {
        ChainEditKeepsChainInvariant(s, calls[0], t);
      } else if Outcome(s, calls[0]).Ok? {
        DecisionKeepsChainInvariant(s, calls[0], t);
      }
      ChainInvariantOverRuns(Step(s, calls[0]), calls[1..], t);
    }
  }

  /**
   * From empty tables, with n stages configured for t and left alone: a request of
   * type t with k approvals waits at stage k + 1 for that stage's role, and is
   * APPROVED exactly when k reaches n.
   */
  lemma StageByStage(chains: map<RequestType, Chain>, roleIds: seq<Id>, t: RequestType, calls: seq<Call>, id: Id)
    requires roleIds != [] && t in chains && chains[t] == StagesFor(roleIds)
    requires ChainKept(State([], [], chains), calls, t)
    requires id < |Run(State([], [], chains), calls).requests|
    requires Run(State([], [], chains), calls).requests[id].requestType == t
    ensures var s := Run(State([], [], chains), calls);
            var k := Approvals(s.actions, id);
            && k <= |roleIds|
            && (s.requests[id].status == Approved <==> k == |roleIds|)
            && (k < |roleIds| ==>
                  s.requests[id].stageOrder == Some(k + 1) && s.requests[id].stageRole == Some(roleIds[k]))
  {
    var s0 := State([], [], chains);
    ChainInvariantOverRuns(s0, calls, t);
    var s := Run(s0, calls);
    var chain := StagesFor(roleIds);
    assert |chain| == |chain.Keys| == |roleIds|;
    assert AtItsStage(s, id);
    if s.requests[id].status != Approved {
      RankOfSetStages(roleIds, s.requests[id].stageOrder.value);
    }
  }

  // ---- The queue and the right to act ----

  lemma {:induction false} PendingFromMembers(s: State, dir: Directory, staffId: Id, from: Id, id: Id)
    requires from <= |s.requests|
    ensures id in PendingFrom(s, dir, staffId, from) <==>
              from <= id < |s.requests| && s.requests[id].status == Pending
              && Actionable(s, dir, id, Some(staffId), false).Ok?
    decreases |s.requests| - from
  {
    if from < |s.requests| {
      PendingFromMembers(s, dir, staffId, from + 1, id);
    }
  }

  /** A queue is exactly the PENDING requests its owner may act on without elevation. */
  lemma QueueIsWhatIsActionable(s: State, dir: Directory, staffId: Id, id: Id)
    ensures id in PendingFor(s, dir, staffId) <==>
              id < |s.requests| && s.requests[id].status == Pending
              && Actionable(s, dir, id, Some(staffId), false).Ok?
  {
    PendingFromMembers(s, dir, staffId, 0, id);
  }

  ghost predicate Increasing(q: seq<int>) {
    forall i, j | 0 <= i < j < |q| :: q[i] < q[j]
  }

  /** Rows come oldest first and once each. */
  lemma {:induction false} QueueOldestFirst(s: State, dir: Directory, staffId: Id, from: Id)
    requires from <= |s.requests|
    ensures Increasing(PendingFrom(s, dir, staffId, from))
    decreases |s.requests| - from
  {
    if from < |s.requests| {
      QueueOldestFirst(s, dir, staffId, from + 1);
      var rest := PendingFrom(s, dir, staffId, from + 1);
      forall j | 0 <= j < |rest| ensures from < rest[j] {
        assert rest[j] in rest;
        PendingFromMembers(s, dir, staffId, from + 1, rest[j]);
      }
    }
  }

  /**
   * Asking for more information on a staged request takes it out of every queue for
   * good: later stages approve it without ever putting the status back to PENDING.
   */
  lemma {:induction false} MoreInfoNeverPendingAgain(s: State, calls: seq<Call>, id: Id)
    requires id < |s.requests| && s.requests[id].status != Pending
    ensures id < |Run(s, calls).requests| && Run(s, calls).requests[id].status != Pending
    decreases |calls|
  {
    if calls != [] {
      MoreInfoNeverPendingAgain(Step(s, calls[0]), calls[1..], id);
    }
  }

  /** Somebody asked for more information on the request. */
  predicate Asked(actions: seq<Action>, id: Id) {
    exists a :: a in actions && a.request == id && a.kind == MoreInfo
  }

  lemma AskedAppend(actions: seq<Action>, a: Action, id: Id)
    ensures Asked(actions + [a], id) <==> Asked(actions, id) || (a.request == id && a.kind == MoreInfo)
  {
    assert a in actions + [a];
  }

  ghost predicate PendingUnlessAsked(s: State) {
    && (forall a | a in s.actions :: a.request < |s.requests|)
    && (forall id: Id | id < |s.requests| && s.requests[id].Open() ::
          s.requests[id].status == Pending <==> !Asked(s.actions, id))
  }

  lemma DecisionKeepsPendingUnlessAsked(s: State, c: Call)
    requires PendingUnlessAsked(s)
    requires Outcome(s, c).Ok? && !c.op.Create? && !c.op.SetChain? && !c.op.DeleteRole?
    ensures PendingUnlessAsked(Step(s, c))
  {
    var s2 := Step(s, c);
    var at, row, a := DecisionShape(s, c);
    hide Step, Outcome, RowAdvanced, ApprovedRow;
    forall id: Id | id < |s2.requests| && s2.requests[id].Open()
      ensures s2.requests[id].status == Pending <==> !Asked(s2.actions, id)
    {
      AskedAppend(s.actions, a, id);
    }
  }

  lemma CreateKeepsPendingUnlessAsked(s: State, c: Call)
    requires PendingUnlessAsked(s) && c.op.Create?
    ensures PendingUnlessAsked(Step(s, c))
  {
    var s2 := Step(s, c);
    hide FirstStage;
    forall id: Id | id < |s2.requests| && s2.requests[id].Open()
      ensures s2.requests[id].status == Pending <==> !Asked(s2.actions, id)
    {
      AskedAppend(s.actions, s2.actions[|s.actions|], id);
    }
  }

  lemma {:induction false} PendingUnlessAskedOverRuns(s: State, calls: seq<Call>)
    requires PendingUnlessAsked(s)
    ensures PendingUnlessAsked(Run(s, calls))
    decreases |calls|
  {
    if calls != [] {
      var c := calls[0];
      if c.op.Create? {
        CreateKeepsPendingUnlessAsked(s, c);
      } else if Outcome(s, c).Ok? && !c.op.SetChain? && !c.op.DeleteRole? {
        DecisionKeepsPendingUnlessAsked(s, c);
      }
      PendingUnlessAskedOverRuns(Step(s, c), calls[1..]);
    }
  }

  /** From empty tables, whatever the chains: an open request is PENDING exactly when nobody asked for information. */
  lemma PendingIffNotAsked(chains: map<RequestType, Chain>, calls: seq<Call>, id: Id)
    requires id < |Run(State([], [], chains), calls).requests|
    requires Run(State([], [], chains), calls).requests[id].Open()
    ensures var s := Run(State([], [], chains), calls);
            s.requests[id].status == Pending <==> !Asked(s.actions, id)
  {
    PendingUnlessAskedOverRuns(State([], [], chains), calls);
  }

  /** So a request its next approver may act on is in their queue exactly when nobody asked for more information. */
  lemma InQueueIffNotAsked(chains: map<RequestType, Chain>, calls: seq<Call>, dir: Directory, staffId: Id, id: Id)
    requires Actionable(Run(State([], [], chains), calls), dir, id, Some(staffId), false).Ok?
    ensures var s := Run(State([], [], chains), calls);
            id in PendingFor(s, dir, staffId) <==> !Asked(s.actions, id)
  {
    PendingIffNotAsked(chains, calls, id);
    QueueIsWhatIsActionable(Run(State([], [], chains), calls), dir, staffId, id);
  }

  /** Staff 1 and 2 hold the roles of stages 1 and 2. */
  const TWO_ROLES := Directory(map[1 := {1}, 2 := {2}], map[], {1, 2}, None)

  const TWO_STAGES: map<RequestType, Chain> := map[PurchaseRequest := map[1 := 1, 2 := 2]]

  const AT_STAGE_ONE := Request(PurchaseRequest, None, None, None, Some(1), Some(1), Pending)

  const AT_STAGE_TWO := AT_STAGE_ONE.(stageOrder := Some(2), stageRole := Some(2), status := MoreInfoRequested)

  /** Stage 1 asks a question and then approves. */
  const ASKED_THEN_APPROVED: seq<Call> := [
    Call(TWO_ROLES, SetChain(PurchaseRequest, [1, 2])),
    Call(TWO_ROLES, Create(PurchaseRequest, None, None, None)),
    Call(TWO_ROLES, RequestMoreInfo(0, 1, false, "Which supplier?")),
    Call(TWO_ROLES, Approve(0, Some(1), false, ""))]

  const LOG: seq<Action> := [
    Action(0, None, Submitted, None, None, ""), Action(0, Some(1), MoreInfo, None, None, "Which supplier?"),
    Action(0, Some(1), Approval, None, None, "")]

  lemma StagesSet()
    ensures Step(State([], [], map[]), ASKED_THEN_APPROVED[0]) == State([], [], TWO_STAGES)
  {
    assert StagesFor([1, 2]) == map[1 := 1, 2 := 2];
  }

  lemma RequestCreated()
    ensures Step(State([], [], TWO_STAGES), ASKED_THEN_APPROVED[1]) == State([AT_STAGE_ONE], LOG[..1], TWO_STAGES)
  {
    var chain: Chain := map[1 := 1, 2 := 2];
    assert 1 in chain && FirstStage(chain) == Some(1);
    hide FirstStage;
  }

  lemma QuestionAsked()
    ensures Step(State([AT_STAGE_ONE], LOG[..1], TWO_STAGES), ASKED_THEN_APPROVED[2])
         == State([AT_STAGE_ONE.(status := MoreInfoRequested)], LOG[..2], TWO_STAGES)
  {
    assert LOG[..2] == LOG[..1] + [LOG[1]];
  }

  lemma ApprovedToStageTwo()
    ensures Step(State([AT_STAGE_ONE.(status := MoreInfoRequested)], LOG[..2], TWO_STAGES), ASKED_THEN_APPROVED[3])
         == State([AT_STAGE_TWO], LOG, TWO_STAGES)
  {
    var chain: Chain := map[1 := 1, 2 := 2];
    assert 2 in chain && NextStage(chain, 1) == Some(2);
    assert LOG == LOG[..2] + [LOG[2]];
    hide NextStage;
  }

  /** From empty tables: the request waits on the holder of stage 2's role, who does not see it in their queue. */
  lemma UnseenStageReachable()
    ensures var s := Run(State([], [], map[]), ASKED_THEN_APPROVED);
            && s.requests == [AT_STAGE_TWO]
            && Actionable(s, TWO_ROLES, 0, Some(2), false).Ok?
            && PendingFor(s, TWO_ROLES, 2) == []
  {
    StagesSet();
    RequestCreated();
    QuestionAsked();
    ApprovedToStageTwo();
    var calls := ASKED_THEN_APPROVED;
    var s2 := State([AT_STAGE_ONE], LOG[..1], TWO_STAGES);
    var s3 := State([AT_STAGE_ONE.(status := MoreInfoRequested)], LOG[..2], TWO_STAGES);
    var s4 := State([AT_STAGE_TWO], LOG, TWO_STAGES);
    hide Step;
    assert calls[1..][1..] == calls[2..] && calls[2..][1..] == calls[3..] && calls[3..][1..] == [];
    assert Run(s3, calls[3..]) == Run(s4, []);
    assert Run(s2, calls[2..]) == Run(s3, calls[3..]);
    assert Run(State([], [], TWO_STAGES), calls[1..]) == Run(s2, calls[2..]);
    assert PendingFrom(s4, TWO_ROLES, 2, 1) == [];
  }
}

/**
 * How often an approved request moves stock, when any call may stop between two of
 * its writes and be retried.
 */
module ExecutionRuns {
  import opened Base
  import A = Approval
  import AR = ApprovalRuns
  import opened Stock
  import opened StockRuns

  /** How many times adjustment `id` changed stock. */
  function Applied(log: seq<Movement>, id: Id): nat {
    if log == [] then 0
    else Applied(log[..|log| - 1], id) + if log[|log| - 1].origin == FromAdjustment(id) then 1 else 0
  }

  /** How many times transfer `id` debited its source. */
  function Executed(log: seq<Movement>, id: Id): nat {
    if log == [] then 0
    else
      var m := log[|log| - 1];
      Executed(log[..|log| - 1], id) + if m.origin == FromTransfer(id) && m.kind == TransferOut then 1 else 0
  }

  lemma LogAppend(log: seq<Movement>, m: Movement, id: Id)
    ensures Applied(log + [m], id) == Applied(log, id) + if m.origin == FromAdjustment(id) then 1 else 0
    ensures Executed(log + [m], id)
         == Executed(log, id) + if m.origin == FromTransfer(id) && m.kind == TransferOut then 1 else 0
  {
  }

  lemma {:induction false} NeverLogged(log: seq<Movement>, id: Id)
    ensures (forall m | m in log :: m.origin != FromAdjustment(id)) ==> Applied(log, id) == 0
    ensures (forall m | m in log :: m.origin != FromTransfer(id)) ==> Executed(log, id) == 0
  {
    if log != [] {
      NeverLogged(log[..|log| - 1], id);
    }
  }

  // ---- Requests and their approval rows ----

  ghost predicate Linked(s: State) {
    && (forall j: Id | j < |s.adjustments| ::
          s.adjustments[j].approval < |s.approvals.requests|
          && s.approvals.requests[s.adjustments[j].approval].requestType == A.InventoryAdjustment)
    && (forall j: Id, k: Id | j < k < |s.adjustments| :: s.adjustments[j].approval != s.adjustments[k].approval)
    && (forall t: Id | t < |s.transfers| && s.transfers[t].approval.Some? ::
          s.transfers[t].approval.value < |s.approvals.requests|
          && s.approvals.requests[s.transfers[t].approval.value].requestType == A.StockTransfer)
    && (forall m | m in s.movements ::
          (m.origin.FromAdjustment? ==> m.origin.request < |s.adjustments|)
          && (m.origin.FromTransfer? ==> m.origin.transfer < |s.transfers|))
  }

  function Row(s: State, j: Id): A.Request
    requires j < |s.adjustments| && s.adjustments[j].approval < |s.approvals.requests|
  {
    s.approvals.requests[s.adjustments[j].approval]
  }

  // ---- One adjustment, seen from outside ----

  /** Nothing about adjustment j changed, except perhaps who its approval waits on. */
  ghost predicate Untouched(s: State, s2: State, j: Id)
    requires Linked(s) && j < |s.adjustments|
  {
    && j < |s2.adjustments| && s2.adjustments[j] == s.adjustments[j]
    && Applied(s2.movements, j) == Applied(s.movements, j)
    && s.adjustments[j].approval < |s2.approvals.requests|
    && Row(s2, j) == Row(s, j).(approver := Row(s2, j).approver, stageRole := Row(s2, j).stageRole)
  }

  ghost predicate Decides(op: Op, j: Id) {
    (op.ApproveAdjustment? || op.RejectAdjustment?) && op.id == j
  }

  lemma DirectOpsUntouched(s: State, c: Call, j: Id)
    requires Linked(s) && j < |s.adjustments|
    requires c.op.CreateItem? || c.op.Receive? || c.op.Reallocate? || c.op.Deduct?
    ensures Untouched(s, Step(s, c), j)
  {
    hide FindItem;
    var s2 := Step(s, c);
    if |s2.movements| == |s.movements| + 1 {
      LogAppend(s.movements, s2.movements[|s.movements|], j);
      assert s2.movements == s.movements + [s2.movements[|s.movements|]];
    } else if |s2.movements| == |s.movements| + 2 {
      var m, m' := s2.movements[|s.movements|], s2.movements[|s.movements| + 1];
      LogAppend(s.movements, m, j);
      LogAppend(s.movements + [m], m', j);
      assert s2.movements == s.movements + [m] + [m'];
    }
  }

  lemma ApproveOtherUntouched(s: State, dir: A.Directory, id: Id, actor: Option<Id>, elevated: bool, writes: nat, j: Id)
    requires Linked(s) && j < |s.adjustments| && id != j
    ensures Untouched(s, ApproveAdjustmentSpec(s, dir, id, actor, elevated, writes).state, j)
  {
    ApproveAdjustmentShape(s, dir, id, actor, elevated, writes);
    if id < |s.adjustments| {
      assert s.adjustments[id].approval != s.adjustments[j].approval;
      var r := s.adjustments[id];
      LogAppend(s.movements, Movement(r.item, Adjustment, r.stockType, r.delta, FromAdjustment(id)), j);
    }
  }

  lemma RejectOtherUntouched(s: State, dir: A.Directory, id: Id, actor: Option<Id>, elevated: bool, reason: string,
                             writes: nat, j: Id)
    requires Linked(s) && j < |s.adjustments| && id != j
    ensures Untouched(s, RejectAdjustmentSpec(s, dir, id, actor, elevated, reason, writes).state, j)
  {
    if id < |s.adjustments| {
      assert s.adjustments[id].approval != s.adjustments[j].approval;
    }
  }

  lemma RequestUntouched(s: State, dir: A.Directory, item: Id, t: StockType, delta: int, staff: Option<Id>,
                         elevated: bool, writes: nat, j: Id)
    requires Linked(s) && j < |s.adjustments|
    ensures Untouched(s, RequestAdjustmentSpec(s, dir, item, t, delta, staff, elevated, writes).state, j)
  {
    if item < |s.items| && writes >= 3 {
      var s3 := Requested(s, dir, item, t, delta, staff);
      RequestedLinked(s, dir, item, t, delta, staff);
      if elevated {
        ApproveOtherUntouched(s3, dir, |s.adjustments|, staff, true, writes - 3, j);
      }
    }
  }

  /** The tables once an adjustment request and its approval have been written. */
  function Requested(s: State, dir: A.Directory, item: Id, t: StockType, delta: int, staff: Option<Id>): State
    requires item < |s.items|
  {
    s.(approvals := A.CreateSpec(s.approvals, dir, A.InventoryAdjustment, Some(s.items[item].branch), staff, None),
       adjustments := s.adjustments + [AdjustmentRequest(item, t, delta, |s.approvals.requests|, A.Pending)])
  }

  lemma RequestedLinked(s: State, dir: A.Directory, item: Id, t: StockType, delta: int, staff: Option<Id>)
    requires Linked(s) && item < |s.items|
    ensures Linked(Requested(s, dir, item, t, delta, staff))
  {
  }

  lemma ReassignmentsUntouched(s: State, c: Call, j: Id)
    requires Linked(s) && j < |s.adjustments|
    requires c.op.ReassignTransfer? || c.op.ReassignAdjustment? || c.op.SetChain? || c.op.DeleteRole?
    ensures Untouched(s, Step(s, c), j)
  {
  }

  lemma RejectTransferUntouched(s: State, dir: A.Directory, id: Id, actor: Option<Id>, elevated: bool, reason: string,
                                writes: nat, j: Id)
    requires Linked(s) && j < |s.adjustments|
    ensures Untouched(s, RejectTransferSpec(s, dir, id, actor, elevated, reason, writes).state, j)
  {
  }

  lemma RequestTransferUntouched(s: State, dir: A.Directory, item: Id, toBranch: Id, t: StockType, quantity: Quantity,
                                 requestedBy: Id, writes: nat, j: Id)
    requires Linked(s) && j < |s.adjustments|
    ensures Untouched(s, RequestTransferSpec(s, dir, item, toBranch, t, quantity, requestedBy, writes).state, j)
  {
  }

  lemma ExecutionLog(s: State, id: Id, j: Id)
    requires id < |s.transfers| && s.transfers[id].fromItem < |s.items|
    ensures Applied(ExecuteTransfer(s, id).movements, j) == Applied(s.movements, j)
    ensures Executed(ExecuteTransfer(s, id).movements, j) == Executed(s.movements, j) + if j == id then 1 else 0
  {
    var transfer := s.transfers[id];
    var m := Movement(transfer.fromItem, TransferOut, transfer.stockType, -(transfer.quantity as int),
                      FromTransfer(id));
    var m' := Movement(Destination(s, id), TransferIn, transfer.stockType, transfer.quantity, FromTransfer(id));
    LogAppend(s.movements, m, j);
    LogAppend(s.movements + [m], m', j);
    assert ExecuteTransfer(s, id).movements == s.movements + [m] + [m'];
  }

  /** What approving a transfer may write, wherever the call stops. */
  ghost predicate TransferEffect(s: State, id: Id, s2: State) {
    && s2.adjustments == s.adjustments
    && |s2.approvals.requests| == |s.approvals.requests|
    && s2.approvals.chains == s.approvals.chains
    && (forall i: Id | i < |s.approvals.requests| ::
          s2.approvals.requests[i].requestType == s.approvals.requests[i].requestType
          && (s2.approvals.requests[i] == s.approvals.requests[i]
              || (id < |s.transfers| && s.transfers[id].approval == Some(i))))
    && (|| (s2.movements == s.movements && s2.transfers == s.transfers)
        || (&& id < |s.transfers| && s.transfers[id].status == TransferPending && s.transfers[id].fromItem < |s.items|
            && s2.movements == ExecuteTransfer(s, id).movements && s2.transfers == ExecuteTransfer(s, id).transfers))
  }

  lemma ExecutionIgnoresApprovals(s: State, id: Id, approvals: A.State)
    requires id < |s.transfers| && s.transfers[id].fromItem < |s.items|
    ensures ExecuteTransfer(s.(approvals := approvals), id) == ExecuteTransfer(s, id).(approvals := approvals)
  {
  }

  lemma ApprovalTouchesOneRow(s: A.State, dir: A.Directory, at: Id, actor: Option<Id>, elevated: bool)
    requires A.ApproveSpec(s, dir, at, actor, elevated, "").Ok?
    ensures at < |s.requests| && s.requests[at].Open()
    ensures var w, l := A.ApproveWrite(s, at), A.ApproveSpec(s, dir, at, actor, elevated, "").value;
            && l.requests == w.requests && l.chains == w.chains == s.chains
            && w.requests == s.requests[at := A.ApprovedRow(s.requests[at], s.ChainOf(s.requests[at].requestType))]
  {
  }

  lemma TransferTailShape(s: State, id: Id, writes: nat)
    requires id < |s.transfers| && s.transfers[id].status == TransferPending
    ensures TransferEffect(s, id, ApproveTransferTail(s, id, writes).state)
  {
  }

  lemma ApproveTransferShape(s: State, dir: A.Directory, id: Id, actor: Option<Id>, elevated: bool, writes: nat)
    ensures TransferEffect(s, id, ApproveTransferSpec(s, dir, id, actor, elevated, writes).state)
  {
    hide A.FirstStage, A.NextStage, FindItem;
    if id < |s.transfers| && s.transfers[id].status == TransferPending {
      var transfer := s.transfers[id];
      if transfer.approval.None? {
        TransferTailShape(s, id, writes);
      } else if A.ApproveSpec(s.approvals, dir, transfer.approval.value, actor, elevated, "").Ok? {
        ApprovalTouchesOneRow(s.approvals, dir, transfer.approval.value, actor, elevated);
        if writes >= 2 {
          var s2 := s.(approvals :=
                       A.ApproveSpec(s.approvals, dir, transfer.approval.value, actor, elevated, "").value);
          TransferTailShape(s2, id, writes - 2);
          if transfer.fromItem < |s.items| {
            ExecutionIgnoresApprovals(s, id, s2.approvals);
          }
        }
      }
    }
  }

  lemma ApproveTransferUntouched(s: State, id: Id, s2: State, j: Id)
    requires Linked(s) && j < |s.adjustments| && TransferEffect(s, id, s2)
    ensures Untouched(s, s2, j)
  {
    if id < |s.transfers| && s.transfers[id].fromItem < |s.items| {
      ExecutionLog(s, id, j);
    }
    assert s2.approvals.requests[s.adjustments[j].approval] == Row(s, j);
  }

  lemma OthersUntouched(s: State, c: Call, j: Id)
    requires Linked(s) && j < |s.adjustments| && !Decides(c.op, j)
    ensures Untouched(s, Step(s, c), j)
  {
    match c.op
    case CreateItem(_, _, _, _, _, _, _) => DirectOpsUntouched(s, c, j);
    case Receive(_, _) => DirectOpsUntouched(s, c, j);
    case Reallocate(_, _, _, _) => DirectOpsUntouched(s, c, j);
    case Deduct(_, _, _, _) => DirectOpsUntouched(s, c, j);
    case RequestAdjustment(item, t, delta, staff, elevated, writes) =>
      RequestUntouched(s, c.dir, item, t, delta, staff, elevated, writes, j);
    case ApproveAdjustment(id, actor, elevated, writes) =>
      ApproveOtherUntouched(s, c.dir, id, actor, elevated, writes, j);
    case RejectAdjustment(id, actor, elevated, reason, writes) =>
      RejectOtherUntouched(s, c.dir, id, actor, elevated, reason, writes, j);
    case ApproveTransfer(id, actor, elevated, writes) =>
      ApproveTransferShape(s, c.dir, id, actor, elevated, writes);
      ApproveTransferUntouched(s, id, Step(s, c), j);
    case RequestTransfer(item, toBranch, t, quantity, requestedBy, writes) =>
      RequestTransferUntouched(s, c.dir, item, toBranch, t, quantity, requestedBy, writes, j);
    case RejectTransfer(id, actor, elevated, reason, writes) =>
      RejectTransferUntouched(s, c.dir, id, actor, elevated, reason, writes, j);
    case _ =>
      ReassignmentsUntouched(s, c, j);
  }

  // ---- One adjustment, while it is being decided ----

  /** What an approval of adjustment `id` may leave behind when it gets past its guards. */
  ghost predicate ApprovalEffect(s: State, id: Id, s2: State)
    requires id < |s.adjustments| && s.adjustments[id].approval < |s.approvals.requests|
  {
    var request := s.adjustments[id];
    && request.status == A.Pending && Row(s, id).Open()
    && s2.transfers == s.transfers && s2.approvals.chains == s.approvals.chains
    && s2.approvals.requests
         == s.approvals.requests[request.approval :=
                                 A.ApprovedRow(Row(s, id), s.approvals.ChainOf(Row(s, id).requestType))]
    && (|| (s2.movements == s.movements && s2.adjustments == s.adjustments)
        || (&& s2.movements
                 == s.movements
                     + [Movement(request.item, Adjustment, request.stockType, request.delta, FromAdjustment(id))]
            && (s2.adjustments == s.adjustments
                || s2.adjustments == s.adjustments[id := request.(status := A.Approved)])))
  }

  lemma ApproveAdjustmentShape(s: State, dir: A.Directory, id: Id, actor: Option<Id>, elevated: bool, writes: nat)
    requires Linked(s)
    ensures var s2 := ApproveAdjustmentSpec(s, dir, id, actor, elevated, writes).state;
            s2 == s || (id < |s.adjustments| && ApprovalEffect(s, id, s2))
  {
    if id < |s.adjustments| && A.ApproveSpec(s.approvals, dir, s.adjustments[id].approval, actor, elevated, "").Ok? {
      ApprovalTouchesOneRow(s.approvals, dir, s.adjustments[id].approval, actor, elevated);
    }
  }

  ghost predicate RejectionEffect(s: State, id: Id, s2: State)
    requires id < |s.adjustments| && s.adjustments[id].approval < |s.approvals.requests|
  {
    var request := s.adjustments[id];
    && request.status == A.Pending && Row(s, id).Open()
    && s2.transfers == s.transfers && s2.approvals.chains == s.approvals.chains && s2.movements == s.movements
    && s2.approvals.requests == s.approvals.requests[request.approval := Row(s, id).(status := A.Rejected)]
    && (s2.adjustments == s.adjustments || s2.adjustments == s.adjustments[id := request.(status := A.Rejected)])
  }

  lemma RejectAdjustmentShape(s: State, dir: A.Directory, id: Id, actor: Option<Id>, elevated: bool, reason: string,
                              writes: nat)
    requires Linked(s)
    ensures var s2 := RejectAdjustmentSpec(s, dir, id, actor, elevated, reason, writes).state;
            s2 == s || (id < |s.adjustments| && RejectionEffect(s, id, s2))
  {
  }

  // ---- Links survive every call ----

  lemma ApprovalKeepsLinks(s: State, id: Id, s2: State)
    requires Linked(s) && id < |s.adjustments|
    requires ApprovalEffect(s, id, s2) || RejectionEffect(s, id, s2)
    ensures Linked(s2)
  {
  }

  lemma DirectOpsKeepLinks(s: State, c: Call)
    requires Linked(s)
    requires c.op.CreateItem? || c.op.Receive? || c.op.Reallocate? || c.op.Deduct?
    ensures Linked(Step(s, c))
  {
  }

  lemma TransferKeepsLinks(s: State, id: Id, s2: State)
    requires Linked(s) && TransferEffect(s, id, s2)
    ensures Linked(s2)
  {
  }

  lemma RequestTransferKeepsLinks(s: State, dir: A.Directory, item: Id, toBranch: Id, t: StockType, quantity: Quantity,
                                  requestedBy: Id, writes: nat)
    requires Linked(s)
    ensures Linked(RequestTransferSpec(s, dir, item, toBranch, t, quantity, requestedBy, writes).state)
  {
    hide A.FirstStage, A.NextStage, A.StagesFor;
  }

  lemma SameLinks(s: State, s2: State)
    requires Linked(s) && s2.adjustments == s.adjustments && s2.movements == s.movements
    requires |s2.approvals.requests| == |s.approvals.requests| && |s2.transfers| == |s.transfers|
    requires forall i: Id | i < |s.approvals.requests| ::
               s2.approvals.requests[i].requestType == s.approvals.requests[i].requestType
    requires forall t: Id | t < |s.transfers| :: s2.transfers[t].approval == s.transfers[t].approval
    ensures Linked(s2)
  {
  }

  lemma RejectTransferKeepsLinks(s: State, dir: A.Directory, id: Id, actor: Option<Id>, elevated: bool,
                                 reason: string, writes: nat)
    requires Linked(s)
    ensures Linked(RejectTransferSpec(s, dir, id, actor, elevated, reason, writes).state)
  {
    SameLinks(s, RejectTransferSpec(s, dir, id, actor, elevated, reason, writes).state);
  }

  lemma ReassignKeepsLinks(s: State, c: Call)
    requires Linked(s) && (c.op.ReassignTransfer? || c.op.ReassignAdjustment? || c.op.SetChain? || c.op.DeleteRole?)
    ensures Linked(Step(s, c))
  {
    SameLinks(s, Step(s, c));
  }

  lemma RequestKeepsLinks(s: State, dir: A.Directory, item: Id, t: StockType, delta: int, staff: Option<Id>,
                          elevated: bool, writes: nat)
    requires Linked(s)
    ensures Linked(RequestAdjustmentSpec(s, dir, item, t, delta, staff, elevated, writes).state)
  {
    if item < |s.items| && writes >= 3 {
      var s3 := Requested(s, dir, item, t, delta, staff);
      RequestedLinked(s, dir, item, t, delta, staff);
      if elevated {
        ApproveAdjustmentShape(s3, dir, |s.adjustments|, staff, true, writes - 3);
        var s4 := ApproveAdjustmentSpec(s3, dir, |s.adjustments|, staff, true, writes - 3).state;
        if s4 != s3 {
          ApprovalKeepsLinks(s3, |s.adjustments|, s4);
        }
      }
    }
  }

  lemma StepKeepsLinks(s: State, c: Call)
    requires Linked(s)
    ensures Linked(Step(s, c))
  {
    var s2 := Step(s, c);
    match c.op
    case CreateItem(_, _, _, _, _, _, _) => DirectOpsKeepLinks(s, c);
    case Receive(_, _) => DirectOpsKeepLinks(s, c);
    case Reallocate(_, _, _, _) => DirectOpsKeepLinks(s, c);
    case Deduct(_, _, _, _) => DirectOpsKeepLinks(s, c);
    case RequestAdjustment(item, t, delta, staff, elevated, writes) =>
      RequestKeepsLinks(s, c.dir, item, t, delta, staff, elevated, writes);
    case ApproveAdjustment(id, actor, elevated, writes) =>
      ApproveAdjustmentShape(s, c.dir, id, actor, elevated, writes);
      if s2 != s {
        ApprovalKeepsLinks(s, id, s2);
      }
    case RejectAdjustment(id, actor, elevated, reason, writes) =>
      RejectAdjustmentShape(s, c.dir, id, actor, elevated, reason, writes);
      if s2 != s {
        ApprovalKeepsLinks(s, id, s2);
      }
    case ApproveTransfer(id, actor, elevated, writes) =>
      ApproveTransferShape(s, c.dir, id, actor, elevated, writes);
      TransferKeepsLinks(s, id, s2);
    case RequestTransfer(item, toBranch, t, quantity, requestedBy, writes) =>
      RequestTransferKeepsLinks(s, c.dir, item, toBranch, t, quantity, requestedBy, writes);
    case RejectTransfer(id, actor, elevated, reason, writes) =>
      RejectTransferKeepsLinks(s, c.dir, id, actor, elevated, reason, writes);
    case _ =>
      ReassignKeepsLinks(s, c);
  }

  // ---- How often stock can still move ----

  /** Approvals a row can still take under a given chain. */
  ghost function Remaining(row: A.Request, chain: A.Chain): nat {
    if !row.Open() then 0
    else if row.stageOrder.None? then 1
    else 1 + |set k | k in chain && k > row.stageOrder.value|
  }

  ghost function AdjustmentChain(s: State): A.Chain {
    s.approvals.ChainOf(A.InventoryAdjustment)
  }

  /** An approval uses one of the remaining ones up. */
  lemma ApprovalUsesOne(row: A.Request, chain: A.Chain)
    requires row.Open()
    ensures Remaining(A.ApprovedRow(row, chain), chain) + 1 == Remaining(row, chain)
  {
    if row.stageOrder.Some? {
      var next := A.NextStage(chain, row.stageOrder.value);
      var later := set k | k in chain && k > row.stageOrder.value;
      if next.Some? {
        var after := set k | k in chain && k > next.value;
        assert later == after + {next.value};
      } else {
        assert later == {};
      }
    }
  }

  lemma FreshRowRemaining(s: A.State, dir: A.Directory, branch: Option<Id>, submitter: Option<Id>)
    ensures var row := A.NewRow(s, dir, A.InventoryAdjustment, branch, submitter, None);
            Remaining(row, s.ChainOf(A.InventoryAdjustment)) == AR.Needed(s.ChainOf(A.InventoryAdjustment))
  {
    var chain := s.ChainOf(A.InventoryAdjustment);
    if chain != map[] {
      var first := A.FirstStage(chain).value;
      assert chain.Keys == (set k | k in chain && k > first) + {first};
      assert |chain| == |chain.Keys|;
    }
  }

  /** Times applied plus approvals left never exceeds what one request of this type takes. */
  ghost predicate WithinBudget(s: State, j: Id)
    requires j < |s.adjustments| && s.adjustments[j].approval < |s.approvals.requests|
  {
    Applied(s.movements, j) + Remaining(Row(s, j), AdjustmentChain(s)) <= AR.Needed(AdjustmentChain(s))
  }

  /** With no chain: stock moved only under an APPROVED approval, and the request's own status agrees. */
  ghost predicate Settled(s: State, j: Id)
    requires j < |s.adjustments| && s.adjustments[j].approval < |s.approvals.requests|
  {
    var request, row, applied := s.adjustments[j], Row(s, j), Applied(s.movements, j);
    AdjustmentChain(s) == map[] ==>
      && row.stageOrder.None?
      && (applied > 0 ==> row.status == A.Approved)
      && (request.status == A.Approved ==> applied == 1)
      && (request.status == A.Rejected ==> row.status == A.Rejected)
      && request.status != A.MoreInfoRequested
  }

  ghost predicate Governed(s: State) {
    Linked(s) && forall j: Id | j < |s.adjustments| :: WithinBudget(s, j) && Settled(s, j)
  }

  lemma UntouchedKeepsBudget(s: State, s2: State, j: Id)
    requires Linked(s) && j < |s.adjustments| && Untouched(s, s2, j)
    requires AdjustmentChain(s2) == AdjustmentChain(s) && WithinBudget(s, j) && Settled(s, j)
    ensures WithinBudget(s2, j) && Settled(s2, j)
  {
  }

  lemma ApprovalKeepsBudget(s: State, id: Id, s2: State)
    requires Linked(s) && id < |s.adjustments| && ApprovalEffect(s, id, s2) && WithinBudget(s, id) && Settled(s, id)
    ensures Linked(s2) && WithinBudget(s2, id) && Settled(s2, id)
  {
    ApprovalKeepsLinks(s, id, s2);
    ApprovalUsesOne(Row(s, id), AdjustmentChain(s));
    assert AdjustmentChain(s2) == AdjustmentChain(s);
    if s2.movements != s.movements {
      var r := s.adjustments[id];
      LogAppend(s.movements, Movement(r.item, Adjustment, r.stockType, r.delta, FromAdjustment(id)), id);
    }
  }

  lemma RejectionKeepsBudget(s: State, id: Id, s2: State)
    requires Linked(s) && id < |s.adjustments| && RejectionEffect(s, id, s2) && WithinBudget(s, id) && Settled(s, id)
    ensures Linked(s2) && WithinBudget(s2, id) && Settled(s2, id)
  {
    ApprovalKeepsLinks(s, id, s2);
  }

  lemma RequestedBudget(s: State, dir: A.Directory, item: Id, t: StockType, delta: int, staff: Option<Id>)
    requires Linked(s) && item < |s.items|
    ensures var s3 := Requested(s, dir, item, t, delta, staff);
            Linked(s3) && WithinBudget(s3, |s.adjustments|) && Settled(s3, |s.adjustments|)
  {
    RequestedLinked(s, dir, item, t, delta, staff);
    FreshRowRemaining(s.approvals, dir, Some(s.items[item].branch), staff);
    NeverLogged(s.movements, |s.adjustments|);
  }

  lemma NewRequestBudget(s: State, dir: A.Directory, item: Id, t: StockType, delta: int, staff: Option<Id>,
                         elevated: bool, writes: nat)
    requires Linked(s)
    ensures var s2 := RequestAdjustmentSpec(s, dir, item, t, delta, staff, elevated, writes).state;
            |s2.adjustments| > |s.adjustments| ==>
              |s2.adjustments| == |s.adjustments| + 1 && Linked(s2)
              && WithinBudget(s2, |s.adjustments|) && Settled(s2, |s.adjustments|)
  {
    hide Linked, WithinBudget, Settled;
    RequestKeepsLinks(s, dir, item, t, delta, staff, elevated, writes);
    if item < |s.items| && writes >= 3 {
      var n := |s.adjustments|;
      var s3 := Requested(s, dir, item, t, delta, staff);
      RequestedBudget(s, dir, item, t, delta, staff);
      if elevated {
        ApproveAdjustmentShape(s3, dir, n, staff, true, writes - 3);
        var s4 := ApproveAdjustmentSpec(s3, dir, n, staff, true, writes - 3).state;
        if s4 != s3 {
          ApprovalKeepsBudget(s3, n, s4);
        }
      }
    }
  }

  lemma StepKeepsGoverned(s: State, c: Call)
    requires Governed(s) && AdjustmentChain(Step(s, c)) == AdjustmentChain(s)
    ensures Governed(Step(s, c))
  {
    var s2 := Step(s, c);
    StepKeepsLinks(s, c);
    forall j: Id | j < |s2.adjustments|
      ensures WithinBudget(s2, j) && Settled(s2, j)
    {
      if j >= |s.adjustments| {
        NewAdjustmentsOnlyFromRequests(s, c);
        var o := c.op;
        NewRequestBudget(s, c.dir, o.item, o.t, o.delta, o.staff, o.elevated, o.writes);
      } else if Decides(c.op, j) {
        DecisionKeepsBudget(s, c, j);
      } else {
        OthersUntouched(s, c, j);
        UntouchedKeepsBudget(s, s2, j);
      }
    }
  }

  lemma NewAdjustmentsOnlyFromRequests(s: State, c: Call)
    ensures |Step(s, c).adjustments| > |s.adjustments| ==> c.op.RequestAdjustment?
  {
  }

  lemma DecisionKeepsBudget(s: State, c: Call, j: Id)
    requires Governed(s) && j < |s.adjustments| && Decides(c.op, j)
    ensures Linked(Step(s, c)) && j < |Step(s, c).adjustments| && WithinBudget(Step(s, c), j) && Settled(Step(s, c), j)
  {
    if c.op.ApproveAdjustment? {
      ApproveAdjustmentShape(s, c.dir, j, c.op.actor, c.op.elevated, c.op.writes);
      if Step(s, c) != s {
        ApprovalKeepsBudget(s, j, Step(s, c));
      }
    } else {
      RejectAdjustmentShape(s, c.dir, j, c.op.actor, c.op.elevated, c.op.reason, c.op.writes);
      if Step(s, c) != s {
        RejectionKeepsBudget(s, j, Step(s, c));
      }
    }
  }

  /** No call of the run edits the adjustment chain. */
  ghost predicate ChainKept(s: State, calls: seq<Call>)
    decreases |calls|
  {
    calls == [] || (AdjustmentChain(Step(s, calls[0])) == AdjustmentChain(s)
                    && ChainKept(Step(s, calls[0]), calls[1..]))
  }

  lemma {:induction false} GovernedOverRuns(s: State, calls: seq<Call>)
    requires Governed(s) && ChainKept(s, calls)
    ensures Governed(Run(s, calls)) && AdjustmentChain(Run(s, calls)) == AdjustmentChain(s)
    decreases |calls|
  {
    if calls != [] {
      StepKeepsGoverned(s, calls[0]);
      GovernedOverRuns(Step(s, calls[0]), calls[1..]);
    }
  }

  /** No requests and no movements yet; items and chains as configured. */
  ghost predicate Fresh(s: State) {
    s.adjustments == [] && s.transfers == [] && s.movements == []
  }

  /** With n stages configured, stock moves at most n times for one request (once when n is 0). */
  lemma AtMostOncePerStage(s: State, calls: seq<Call>, j: Id)
    requires Fresh(s) && ChainKept(s, calls) && j < |Run(s, calls).adjustments|
    ensures Applied(Run(s, calls).movements, j) <= AR.Needed(AdjustmentChain(s))
  {
    GovernedOverRuns(s, calls);
    assert WithinBudget(Run(s, calls), j);
  }

  /**
   * With no chain: at most one movement per adjustment over any run of calls, stops and
   * retries; an APPROVED adjustment has exactly one, under an APPROVED approval; a
   * REJECTED one has none.
   */
  lemma AtMostOnceWithoutChain(s: State, calls: seq<Call>, j: Id)
    requires Fresh(s) && AdjustmentChain(s) == map[] && ChainKept(s, calls) && j < |Run(s, calls).adjustments|
    ensures var e := Run(s, calls);
            && e.adjustments[j].approval < |e.approvals.requests|
            && Applied(e.movements, j) <= 1
            && (Applied(e.movements, j) == 1 ==> Row(e, j).status == A.Approved)
            && (e.adjustments[j].status == A.Approved ==> Applied(e.movements, j) == 1)
            && (e.adjustments[j].status == A.Rejected ==>
                  Applied(e.movements, j) == 0 && Row(e, j).status == A.Rejected)
  {
    GovernedOverRuns(s, calls);
    assert WithinBudget(Run(s, calls), j) && Settled(Run(s, calls), j);
  }

  // ---- Where once is not reached, and where it is exceeded ----

  /** Once the approval row is decided and the adjustment still PENDING, nothing will ever finish it. */
  lemma {:induction false} StuckForever(s: State, calls: seq<Call>, j: Id)
    requires Linked(s) && j < |s.adjustments| && s.adjustments[j].status == A.Pending && !Row(s, j).Open()
    ensures var e := Run(s, calls);
            j < |e.adjustments| && e.adjustments[j] == s.adjustments[j]
                && Applied(e.movements, j) == Applied(s.movements, j)
    decreases |calls|
  {
    if calls != [] {
      var m := Step(s, calls[0]);
      StepKeepsLinks(s, calls[0]);
      if Decides(calls[0].op, j) {
        assert m == s;
      } else {
        OthersUntouched(s, calls[0], j);
      }
      StuckForever(m, calls[1..], j);
    }
  }

  /** The call gets past its guards. */
  ghost predicate CanApprove(s: State, dir: A.Directory, j: Id, actor: Option<Id>, elevated: bool) {
    && Linked(s) && j < |s.adjustments| && s.adjustments[j].status == A.Pending && s.adjustments[j].item < |s.items|
    && A.Actionable(s.approvals, dir, s.adjustments[j].approval, actor, elevated).Ok?
  }

  ghost predicate Covered(s: State, j: Id)
    requires j < |s.adjustments| && s.adjustments[j].item < |s.items|
  {
    var r := s.adjustments[j];
    s.items[r.item].stock.Get(r.stockType) + r.delta >= 0
  }

  /**
   * An unchained approval ends well exactly when the stock covers it and the process
   * survives all four writes. If anything was written and it does not, the request stays
   * PENDING in every continuation, its stock moved only if the process died just before
   * the last write.
   */
  lemma ApprovalSucceedsOrSticks(s: State, dir: A.Directory, j: Id, actor: Option<Id>, elevated: bool, writes: nat,
                                 later: seq<Call>)
    requires CanApprove(s, dir, j, actor, elevated) && Row(s, j).stageOrder.None?
    ensures var m := ApproveAdjustmentSpec(s, dir, j, actor, elevated, writes).state;
            var e := Run(m, later);
            && (m.adjustments[j].status == A.Approved <==> Covered(s, j) && writes >= 4)
            && (writes >= 1 && !(Covered(s, j) && writes >= 4) ==>
                  j < |e.adjustments| && e.adjustments[j].status == A.Pending
                  && Applied(e.movements, j)
                     == Applied(s.movements, j) + if Covered(s, j) && writes == 3 then 1 else 0)
  {
    var m := ApproveAdjustmentSpec(s, dir, j, actor, elevated, writes).state;
    ApproveAdjustmentShape(s, dir, j, actor, elevated, writes);
    ApprovalTouchesOneRow(s.approvals, dir, s.adjustments[j].approval, actor, elevated);
    var r := s.adjustments[j];
    LogAppend(s.movements, Movement(r.item, Adjustment, r.stockType, r.delta, FromAdjustment(j)), j);
    if writes >= 1 && !(Covered(s, j) && writes >= 4) {
      assert m.approvals.requests[r.approval].status == A.Approved;
      assert m != s;
      ApprovalKeepsLinks(s, j, m);
      StuckForever(m, later, j);
    }
  }

  /**
   * A complete approval call executes the adjustment at once. It leaves the approval
   * APPROVED exactly when no stage was left to run: with stages left, stock has moved
   * while the approval is still open.
   */
  lemma ExecutesBeforeApprovalIff(s: State, dir: A.Directory, j: Id, actor: Option<Id>, elevated: bool, writes: nat)
    requires CanApprove(s, dir, j, actor, elevated) && Covered(s, j) && writes >= 4
    ensures var m := ApproveAdjustmentSpec(s, dir, j, actor, elevated, writes).state;
            && Linked(m) && j < |m.adjustments| && m.adjustments[j].status == A.Approved
            && Applied(m.movements, j) == Applied(s.movements, j) + 1
            && (Row(m, j).status == A.Approved <==> Remaining(Row(s, j), AdjustmentChain(s)) == 1)
            && (Row(m, j).Open() <==> Remaining(Row(s, j), AdjustmentChain(s)) > 1)
  {
    var m := ApproveAdjustmentSpec(s, dir, j, actor, elevated, writes).state;
    ApproveAdjustmentShape(s, dir, j, actor, elevated, writes);
    var r := s.adjustments[j];
    LogAppend(s.movements, Movement(r.item, Adjustment, r.stockType, r.delta, FromAdjustment(j)), j);
    assert m.adjustments[j].status == A.Approved && m != s;
    ApprovalKeepsLinks(s, j, m);
    ApprovalUsesOne(Row(s, j), AdjustmentChain(s));
  }

  /** An administrator approves j and the process stops before the request's status is written. */
  function StoppedApproval(dir: A.Directory, j: Id): Call {
    Call(dir, ApproveAdjustment(j, None, true, 3))
  }

  function Repeat(c: Call, n: nat): (calls: seq<Call>)
    ensures |calls| == n
  {
    if n == 0 then [] else [c] + Repeat(c, n - 1)
  }

  /** The stock the adjustment is about. */
  function Bucket(s: State, j: Id): int
    requires j < |s.adjustments| && s.adjustments[j].item < |s.items|
  {
    s.items[s.adjustments[j].item].stock.Get(s.adjustments[j].stockType)
  }

  lemma EnoughForAll(stock: int, delta: int, n: nat)
    requires n > 0 && stock >= 0 && stock + n * delta >= 0
    ensures stock + delta >= 0 && stock + delta + (n - 1) * delta == stock + n * delta
  {
  }

  /**
   * The bound is reached: retrying stopped calls moves stock once for every approval left, as far as it
   * covers them.
   */
  lemma {:induction false} RetriesReachTheBound(s: State, dir: A.Directory, j: Id)
    requires Linked(s) && j < |s.adjustments| && s.adjustments[j].status == A.Pending
    requires s.adjustments[j].item < |s.items| && Bucket(s, j) >= 0
    requires Bucket(s, j) + Remaining(Row(s, j), AdjustmentChain(s)) * s.adjustments[j].delta >= 0
    ensures var e := Run(s, Repeat(StoppedApproval(dir, j), Remaining(Row(s, j), AdjustmentChain(s))));
            Applied(e.movements, j) == Applied(s.movements, j) + Remaining(Row(s, j), AdjustmentChain(s))
    decreases Remaining(Row(s, j), AdjustmentChain(s))
  {
    var n := Remaining(Row(s, j), AdjustmentChain(s));
    if n > 0 {
      var c := StoppedApproval(dir, j);
      var m := Step(s, c);
      EnoughForAll(Bucket(s, j), s.adjustments[j].delta, n);
      StoppedApprovalMoves(s, dir, j);
      assert Repeat(c, n)[1..] == Repeat(c, n - 1);
      hide Linked, Remaining, Step;
      RetriesReachTheBound(m, dir, j);
    }
  }

  /**
   * One stopped approval, with stock to cover it: the movement is made, an approval is used, the request
   * stays PENDING.
   */
  lemma StoppedApprovalMoves(s: State, dir: A.Directory, j: Id)
    requires Linked(s) && j < |s.adjustments| && s.adjustments[j].status == A.Pending && Row(s, j).Open()
    requires s.adjustments[j].item < |s.items| && Bucket(s, j) + s.adjustments[j].delta >= 0
    ensures var m := Step(s, StoppedApproval(dir, j));
            && Linked(m) && m.adjustments == s.adjustments && |m.items| == |s.items|
            && AdjustmentChain(m) == AdjustmentChain(s)
            && Bucket(m, j) == Bucket(s, j) + s.adjustments[j].delta
            && Applied(m.movements, j) == Applied(s.movements, j) + 1
            && Remaining(Row(m, j), AdjustmentChain(m)) + 1 == Remaining(Row(s, j), AdjustmentChain(s))
  {
    var m := Step(s, StoppedApproval(dir, j));
    var r := s.adjustments[j];
    ApproveAdjustmentShape(s, dir, j, None, true, 3);
    LogAppend(s.movements, Movement(r.item, Adjustment, r.stockType, r.delta, FromAdjustment(j)), j);
    assert |m.movements| == |s.movements| + 1;
    ApprovalKeepsLinks(s, j, m);
    ApprovalUsesOne(Row(s, j), AdjustmentChain(s));
  }

  /** Goods received for the item and, if need be, moved to the bucket the adjustment is about. */
  function StockUp(s: State, dir: A.Directory, j: Id, quantity: Quantity): seq<Call>
    requires j < |s.adjustments|
  {
    var r := s.adjustments[j];
    [Call(dir, Receive(r.item, quantity))]
    + if r.stockType == Store then [] else [Call(dir, Reallocate(r.item, Store, r.stockType, quantity))]
  }

  /** Nothing changes but the item's stock and the log of goods movements. */
  ghost predicate StockedUp(s: State, s2: State, j: Id) {
    && s2.adjustments == s.adjustments && s2.approvals == s.approvals && |s2.items| == |s.items|
    && Applied(s2.movements, j) == Applied(s.movements, j)
    && (Linked(s) ==> Linked(s2))
  }

  lemma DirectStep(s: State, c: Call, j: Id)
    requires Linked(s) && j < |s.adjustments| && (c.op.Receive? || c.op.Reallocate?)
    ensures StockedUp(s, Step(s, c), j)
  {
    DirectOpsKeepLinks(s, c);
    OthersUntouched(s, c, j);
  }

  lemma StockUpWorks(s: State, dir: A.Directory, j: Id, quantity: Quantity)
    requires Linked(s) && NonNegative(s) && j < |s.adjustments| && s.adjustments[j].item < |s.items|
    ensures var calls := StockUp(s, dir, j, quantity);
            var e := Run(s, calls);
            && StockedUp(s, e, j) && ChainKept(s, calls)
            && Bucket(e, j) == Bucket(s, j) + quantity
  {
    hide Step, Linked, NonNegative, Applied;
    var calls := StockUp(s, dir, j, quantity);
    var r := s.adjustments[j];
    var s1 := Step(s, calls[0]);
    ReceivedInStore(s, dir, j, quantity);
    if r.stockType == Store {
      assert calls[1..] == [];
    } else {
      MovedFromStore(s1, dir, j, quantity);
      var s2 := Step(s1, calls[1]);
      assert calls[1..] == [calls[1]] && calls[1..][1..] == [];
      assert Run(s1, calls[1..]) == Run(s2, []);
      assert ChainKept(s1, calls[1..]) by { assert ChainKept(s2, []); }
    }
  }

  lemma ReceiptEffect(s: State, dir: A.Directory, item: Id, quantity: Quantity)
    requires item < |s.items|
    ensures var s2 := Step(s, Call(dir, Receive(item, quantity)));
            && |s2.items| == |s.items|
            && forall t: StockType :: s2.items[item].stock.Get(t)
                                   == s.items[item].stock.Get(t) + if t == Store then quantity else 0
  {
  }

  lemma ReallocationEffect(s: State, dir: A.Directory, item: Id, t: StockType, quantity: Quantity)
    requires item < |s.items| && t != Store && s.items[item].stock.Get(Store) >= quantity
    ensures var s2 := Step(s, Call(dir, Reallocate(item, Store, t, quantity)));
            |s2.items| == |s.items| && s2.items[item].stock.Get(t) == s.items[item].stock.Get(t) + quantity
  {
  }

  lemma ReceivedInStore(s: State, dir: A.Directory, j: Id, quantity: Quantity)
    requires Linked(s) && NonNegative(s) && j < |s.adjustments| && s.adjustments[j].item < |s.items|
    ensures var item := s.adjustments[j].item;
            var s2 := Step(s, Call(dir, Receive(item, quantity)));
            && StockedUp(s, s2, j) && s2.items[item].stock.Get(Store) >= quantity
            && Bucket(s2, j) == Bucket(s, j) + if s.adjustments[j].stockType == Store then quantity else 0
  {
    var r := s.adjustments[j];
    assert s.items[r.item].stock.Get(Store) >= 0;
    hide Step, Linked, NonNegative, Applied;
    DirectStep(s, Call(dir, Receive(r.item, quantity)), j);
    ReceiptEffect(s, dir, r.item, quantity);
  }

  lemma MovedFromStore(s: State, dir: A.Directory, j: Id, quantity: Quantity)
    requires Linked(s) && j < |s.adjustments| && s.adjustments[j].item < |s.items|
               && s.adjustments[j].stockType != Store
    requires s.items[s.adjustments[j].item].stock.Get(Store) >= quantity
    ensures var s2 :=
              Step(s, Call(dir, Reallocate(s.adjustments[j].item, Store, s.adjustments[j].stockType, quantity)));
            StockedUp(s, s2, j) && Bucket(s2, j) == Bucket(s, j) + quantity
  {
    hide Step, Linked, Applied;
    var r := s.adjustments[j];
    DirectStep(s, Call(dir, Reallocate(r.item, Store, r.stockType, quantity)), j);
    ReallocationEffect(s, dir, r.item, r.stockType, quantity);
  }

  lemma {:induction false} ChainKeptConcat(s: State, a: seq<Call>, b: seq<Call>)
    requires ChainKept(s, a) && ChainKept(Run(s, a), b)
    ensures ChainKept(s, a + b)
    decreases |a|
  {
    hide Step;
    if a == [] {
      assert a + b == b;
    } else {
      assert (a + b)[1..] == a[1..] + b;
      ChainKeptConcat(Step(s, a[0]), a[1..], b);
    }
  }

  /** Whatever the sign of the adjustment, some run that keeps the chain moves stock once for every approval left. */
  lemma EveryApprovalCanMoveStock(s: State, dir: A.Directory, j: Id) returns (calls: seq<Call>)
    requires Linked(s) && NonNegative(s) && j < |s.adjustments| && s.adjustments[j].status == A.Pending
    requires s.adjustments[j].item < |s.items|
    ensures ChainKept(s, calls)
    ensures Applied(Run(s, calls).movements, j) == Applied(s.movements, j) + Remaining(Row(s, j), AdjustmentChain(s))
  {
    var n := Remaining(Row(s, j), AdjustmentChain(s));
    var delta := s.adjustments[j].delta;
    var quantity := EnoughStock(n, delta);
    var first, retries := StockUp(s, dir, j, quantity), Repeat(StoppedApproval(dir, j), n);
    StockUpWorks(s, dir, j, quantity);
    var e := Run(s, first);
    assert s.items[s.adjustments[j].item].stock.Get(s.adjustments[j].stockType) >= 0;
    calls := first + retries;
    RunConcat(s, first, retries);
    RetriesReachTheBound(e, dir, j);
    RepeatKeepsChain(e, StoppedApproval(dir, j), n);
    ChainKeptConcat(s, first, retries);
  }

  /** A quantity that n withdrawals of this size cannot exhaust. */
  function EnoughStock(n: nat, delta: int): (quantity: Quantity)
    ensures quantity + n * delta >= 0
  {
    if delta >= 0 then 1 else
    assert n * (-delta) >= 0;
    n * (-delta) + 1
  }

  /** So stock moves at most once in every run, chain kept, exactly when one approval is left at most. */
  lemma OnceIffOneApprovalLeft(s: State, dir: A.Directory, j: Id)
    requires Governed(s) && NonNegative(s) && j < |s.adjustments| && s.adjustments[j].status == A.Pending
    requires s.adjustments[j].item < |s.items|
    ensures (forall calls | ChainKept(s, calls) :: Applied(Run(s, calls).movements, j) <= Applied(s.movements, j) + 1)
            <==> Remaining(Row(s, j), AdjustmentChain(s)) <= 1
  {
    var reached := EveryApprovalCanMoveStock(s, dir, j);
    forall calls | ChainKept(s, calls)
      ensures Applied(Run(s, calls).movements, j) <= Applied(s.movements, j) + Remaining(Row(s, j), AdjustmentChain(s))
    {
      SpentOverRuns(s, calls, j);
    }
  }

  lemma ApprovalsNeverEditChains(s: State, dir: A.Directory, id: Id, actor: Option<Id>, elevated: bool, writes: nat)
    ensures ApproveAdjustmentSpec(s, dir, id, actor, elevated, writes).state.approvals.chains == s.approvals.chains
  {
  }

  lemma {:induction false} RepeatKeepsChain(s: State, c: Call, n: nat)
    requires c.op.ApproveAdjustment?
    ensures ChainKept(s, Repeat(c, n))
    decreases n
  {
    hide ApproveAdjustmentSpec;
    if n > 0 {
      ApprovalsNeverEditChains(s, c.dir, c.op.id, c.op.actor, c.op.elevated, c.op.writes);
      assert Repeat(c, n)[1..] == Repeat(c, n - 1);
      RepeatKeepsChain(Step(s, c), c, n - 1);
    }
  }

  lemma StepSpends(s: State, c: Call, j: Id)
    requires Linked(s) && j < |s.adjustments| && AdjustmentChain(Step(s, c)) == AdjustmentChain(s)
    ensures var m := Step(s, c);
            && Linked(m) && j < |m.adjustments|
            && Applied(m.movements, j) + Remaining(Row(m, j), AdjustmentChain(s))
               <= Applied(s.movements, j) + Remaining(Row(s, j), AdjustmentChain(s))
  {
    var m := Step(s, c);
    StepKeepsLinks(s, c);
    if c.op.ApproveAdjustment? && c.op.id == j {
      ApproveAdjustmentShape(s, c.dir, j, c.op.actor, c.op.elevated, c.op.writes);
      if m != s {
        ApprovalSpends(s, j, m);
      }
    } else if c.op.RejectAdjustment? && c.op.id == j {
      RejectAdjustmentShape(s, c.dir, j, c.op.actor, c.op.elevated, c.op.reason, c.op.writes);
    } else {
      OthersUntouched(s, c, j);
    }
  }

  lemma ApprovalSpends(s: State, j: Id, m: State)
    requires Linked(s) && Linked(m) && j < |s.adjustments| && ApprovalEffect(s, j, m)
    ensures Applied(m.movements, j) + Remaining(Row(m, j), AdjustmentChain(s))
            <= Applied(s.movements, j) + Remaining(Row(s, j), AdjustmentChain(s))
  {
    var r := s.adjustments[j];
    LogAppend(s.movements, Movement(r.item, Adjustment, r.stockType, r.delta, FromAdjustment(j)), j);
    ApprovalUsesOne(Row(s, j), AdjustmentChain(s));
  }

  /** Along any run, what is applied plus what remains never grows. */
  lemma {:induction false} SpentOverRuns(s: State, calls: seq<Call>, j: Id)
    requires Linked(s) && j < |s.adjustments| && ChainKept(s, calls)
    ensures var e := Run(s, calls);
            Applied(e.movements, j) <= Applied(s.movements, j) + Remaining(Row(s, j), AdjustmentChain(s))
    decreases |calls|
  {
    if calls != [] {
      StepSpends(s, calls[0], j);
      SpentOverRuns(Step(s, calls[0]), calls[1..], j);
    }
  }

  // ---- Transfers ----

  ghost predicate TransfersSettled(s: State) {
    Linked(s) && forall t: Id | t < |s.transfers| ::
      Executed(s.movements, t) == if s.transfers[t].status == Completed then 1 else 0
  }

  lemma StepKeepsTransfersSettled(s: State, c: Call)
    requires TransfersSettled(s)
    ensures TransfersSettled(Step(s, c))
  {
    var s2 := Step(s, c);
    StepKeepsLinks(s, c);
    forall t: Id | t < |s2.transfers|
      ensures Executed(s2.movements, t) == if s2.transfers[t].status == Completed then 1 else 0
    {
      TransferProgress(s, c, t);
      if t == |s.transfers| {
        NeverLogged(s.movements, t);
      }
    }
  }

  /** What one call does to one transfer and its executions. */
  ghost predicate TransferMoved(s: State, s2: State, t: Id)
    requires t < |s2.transfers|
  {
    if t >= |s.transfers| then
      t == |s.transfers| && s2.transfers[t].status == TransferPending && s2.movements == s.movements
    else
      Executed(s2.movements, t) - Executed(s.movements, t)
      == (if s2.transfers[t].status == Completed then 1 else 0) - (if s.transfers[t].status == Completed then 1 else 0)
  }

  lemma TransferProgress(s: State, c: Call, t: Id)
    requires Linked(s) && t < |Step(s, c).transfers|
    ensures TransferMoved(s, Step(s, c), t)
  {
    match c.op
    case CreateItem(_, _, _, _, _, _, _) => DirectOpsLog(s, c, t);
    case Receive(_, _) => DirectOpsLog(s, c, t);
    case Reallocate(_, _, _, _) => DirectOpsLog(s, c, t);
    case Deduct(_, _, _, _) => DirectOpsLog(s, c, t);
    case RequestAdjustment(item, u, delta, staff, elevated, writes) =>
      RequestLog(s, c.dir, item, u, delta, staff, elevated, writes, t);
    case ApproveAdjustment(id, actor, elevated, writes) =>
      AdjustmentLog(s, c.dir, id, actor, elevated, writes, t);
    case ApproveTransfer(id, actor, elevated, writes) =>
      ApproveTransferShape(s, c.dir, id, actor, elevated, writes);
      ExecutionProgress(s, id, Step(s, c), t);
    case RequestTransfer(_, _, _, _, _, _) => TransferPaperwork(s, c, t);
    case RejectTransfer(_, _, _, _, _) => TransferPaperwork(s, c, t);
    case _ => OtherPaperwork(s, c);
  }

  lemma ExecutionProgress(s: State, id: Id, s2: State, t: Id)
    requires TransferEffect(s, id, s2) && t < |s2.transfers|
    ensures TransferMoved(s, s2, t)
  {
    if s2.movements != s.movements {
      ExecutionLog(s, id, t);
    }
  }

  lemma TransferPaperwork(s: State, c: Call, t: Id)
    requires (c.op.RequestTransfer? || c.op.RejectTransfer?) && t < |Step(s, c).transfers|
    ensures TransferMoved(s, Step(s, c), t)
  {
  }

  lemma OtherPaperwork(s: State, c: Call)
    requires c.op.RejectAdjustment? || c.op.ReassignAdjustment? || c.op.ReassignTransfer? || c.op.SetChain?
             || c.op.DeleteRole?
    ensures Step(s, c).transfers == s.transfers && Step(s, c).movements == s.movements
  {
  }

  lemma RequestLog(s: State, dir: A.Directory, item: Id, u: StockType, delta: int, staff: Option<Id>, elevated: bool,
                   writes: nat, t: Id)
    requires Linked(s)
    ensures var s2 := RequestAdjustmentSpec(s, dir, item, u, delta, staff, elevated, writes).state;
            s2.transfers == s.transfers && Executed(s2.movements, t) == Executed(s.movements, t)
  {
    if item < |s.items| && writes >= 3 && elevated {
      RequestedLinked(s, dir, item, u, delta, staff);
      AdjustmentLog(Requested(s, dir, item, u, delta, staff), dir, |s.adjustments|, staff, true, writes - 3, t);
    }
  }

  lemma DirectOpsLog(s: State, c: Call, t: Id)
    requires c.op.CreateItem? || c.op.Receive? || c.op.Reallocate? || c.op.Deduct?
    ensures Step(s, c).transfers == s.transfers && Executed(Step(s, c).movements, t) == Executed(s.movements, t)
  {
    hide FindItem, Executed, Applied;
    var s2 := Step(s, c);
    if |s2.movements| == |s.movements| + 1 {
      LogAppend(s.movements, s2.movements[|s.movements|], t);
      assert s2.movements == s.movements + [s2.movements[|s.movements|]];
    } else if |s2.movements| == |s.movements| + 2 {
      var m, m' := s2.movements[|s.movements|], s2.movements[|s.movements| + 1];
      LogAppend(s.movements, m, t);
      LogAppend(s.movements + [m], m', t);
      assert s2.movements == s.movements + [m] + [m'];
    }
  }

  lemma AdjustmentLog(s: State, dir: A.Directory, id: Id, actor: Option<Id>, elevated: bool, writes: nat, t: Id)
    requires Linked(s)
    ensures var s2 := ApproveAdjustmentSpec(s, dir, id, actor, elevated, writes).state;
            s2.transfers == s.transfers && Executed(s2.movements, t) == Executed(s.movements, t)
  {
    ApproveAdjustmentShape(s, dir, id, actor, elevated, writes);
    if id < |s.adjustments| {
      var r := s.adjustments[id];
      LogAppend(s.movements, Movement(r.item, Adjustment, r.stockType, r.delta, FromAdjustment(id)), t);
    }
  }

  /**
   * A transfer debits its source at most once over any run, chain edits and stops
   * included, and exactly when it is COMPLETED: its status is part of the transaction.
   */
  lemma {:induction false} TransfersExecuteOnce(s: State, calls: seq<Call>)
    requires TransfersSettled(s)
    ensures TransfersSettled(Run(s, calls))
    decreases |calls|
  {
    if calls != [] {
      StepKeepsTransfersSettled(s, calls[0]);
      TransfersExecuteOnce(Step(s, calls[0]), calls[1..]);
    }
  }
}

/** What becomes of a branch transfer whose approval was decided but whose stock never moved. */
module TransferRuns {
  import opened Base
  import A = Approval
  import opened Stock
  import opened StockRuns
  import opened ExecutionRuns

  /** Row i was decided before, and stays as it was; only a deleted role is cleared from it. */
  ghost predicate RowStays(s: State, s2: State, i: Id) {
    i < |s.approvals.requests| && !s.approvals.requests[i].Open() ==>
      && i < |s2.approvals.requests|
      && s2.approvals.requests[i]
         == s.approvals.requests[i].(stageRole := s2.approvals.requests[i].stageRole)
  }

  lemma ApproveAdjustmentRow(s: State, dir: A.Directory, id: Id, actor: Option<Id>, elevated: bool, writes: nat, i: Id)
    ensures RowStays(s, ApproveAdjustmentSpec(s, dir, id, actor, elevated, writes).state, i)
  {
    hide A.FirstStage, A.NextStage;
  }

  lemma RejectAdjustmentRow(s: State, dir: A.Directory, id: Id, actor: Option<Id>, elevated: bool, reason: string,
                            writes: nat, i: Id)
    ensures RowStays(s, RejectAdjustmentSpec(s, dir, id, actor, elevated, reason, writes).state, i)
  {
  }

  lemma RequestAdjustmentRow(s: State, dir: A.Directory, item: Id, t: StockType, delta: int, staff: Option<Id>,
                             elevated: bool, writes: nat, i: Id)
    ensures RowStays(s, RequestAdjustmentSpec(s, dir, item, t, delta, staff, elevated, writes).state, i)
  {
    hide A.FirstStage, A.NextStage, A.ApproveSpec;
    if item < |s.items| && writes >= 3 {
      ApproveAdjustmentRow(Requested(s, dir, item, t, delta, staff), dir, |s.adjustments|, staff, true, writes - 3, i);
    }
  }

  lemma ApproveTransferRow(s: State, dir: A.Directory, id: Id, actor: Option<Id>, elevated: bool, writes: nat, i: Id)
    ensures RowStays(s, ApproveTransferSpec(s, dir, id, actor, elevated, writes).state, i)
  {
    hide A.FirstStage, A.NextStage, FindItem;
  }

  lemma RejectTransferRow(s: State, dir: A.Directory, id: Id, actor: Option<Id>, elevated: bool, reason: string,
                          writes: nat, i: Id)
    ensures RowStays(s, RejectTransferSpec(s, dir, id, actor, elevated, reason, writes).state, i)
  {
  }

  lemma ReassignRow(s: State, c: Call, i: Id)
    requires c.op.ReassignAdjustment? || c.op.ReassignTransfer? || c.op.SetChain? || c.op.DeleteRole?
             || c.op.RequestTransfer?
    ensures RowStays(s, Step(s, c), i)
  {
    hide A.FirstStage;
  }

  lemma GoodsRow(s: State, c: Call, i: Id)
    requires c.op.CreateItem? || c.op.Receive? || c.op.Reallocate? || c.op.Deduct?
    ensures RowStays(s, Step(s, c), i)
  {
  }

  /** A decided approval row keeps its decision, whatever the stock service is asked to do. */
  lemma DecidedRowStays(s: State, c: Call, i: Id)
    ensures RowStays(s, Step(s, c), i)
  {
    hide RowStays;
    match c.op {
      case CreateItem(_, _, _, _, _, _, _) => GoodsRow(s, c, i);
      case Receive(_, _) => GoodsRow(s, c, i);
      case Reallocate(_, _, _, _) => GoodsRow(s, c, i);
      case Deduct(_, _, _, _) => GoodsRow(s, c, i);
      case RequestAdjustment(item, t, delta, staff, elevated, writes) =>
        RequestAdjustmentRow(s, c.dir, item, t, delta, staff, elevated, writes, i);
      case ApproveAdjustment(id, actor, elevated, writes) =>
          ApproveAdjustmentRow(s, c.dir, id, actor, elevated, writes, i);
      case RejectAdjustment(id, actor, elevated, reason, writes) =>
        RejectAdjustmentRow(s, c.dir, id, actor, elevated, reason, writes, i);
      case ApproveTransfer(id, actor, elevated, writes) => ApproveTransferRow(s, c.dir, id, actor, elevated, writes, i);
      case RejectTransfer(id, actor, elevated, reason, writes) =>
        RejectTransferRow(s, c.dir, id, actor, elevated, reason, writes, i);
      case _ => ReassignRow(s, c, i);
    }
  }

  /** The transfer waits on an approval that is already decided. */
  predicate Stranded(s: State, t: Id) {
    && t < |s.transfers| && s.transfers[t].status == TransferPending && s.transfers[t].approval.Some?
    && s.transfers[t].approval.value < |s.approvals.requests|
    && !s.approvals.requests[s.transfers[t].approval.value].Open()
  }

  lemma AdjustmentsLeaveTransfers(s: State, dir: A.Directory, id: Id, actor: Option<Id>, elevated: bool, writes: nat)
    ensures ApproveAdjustmentSpec(s, dir, id, actor, elevated, writes).state.transfers == s.transfers
  {
    hide A.FirstStage, A.NextStage;
  }

  lemma RequestsLeaveTransfers(s: State, dir: A.Directory, item: Id, t: StockType, delta: int, staff: Option<Id>,
                               elevated: bool, writes: nat)
    ensures RequestAdjustmentSpec(s, dir, item, t, delta, staff, elevated, writes).state.transfers == s.transfers
  {
    hide A.FirstStage, A.NextStage, A.ApproveSpec;
    if item < |s.items| && writes >= 3 {
      AdjustmentsLeaveTransfers(Requested(s, dir, item, t, delta, staff), dir, |s.adjustments|, staff, true,
                                writes - 3);
    }
  }

  lemma TransferDecisionsLeaveOthers(s: State, c: Call, t: Id)
    requires Stranded(s, t) && (c.op.ApproveTransfer? || c.op.RejectTransfer? || c.op.RequestTransfer?)
    ensures t < |Step(s, c).transfers| && Step(s, c).transfers[t] == s.transfers[t]
  {
    hide A.FirstStage, A.NextStage, FindItem;
  }

  lemma OtherOpsLeaveTransfers(s: State, c: Call)
    requires !c.op.ApproveTransfer? && !c.op.RejectTransfer? && !c.op.RequestTransfer?
    ensures Step(s, c).transfers == s.transfers
  {
    match c.op {
      case RequestAdjustment(item, t, delta, staff, elevated, writes) =>
        RequestsLeaveTransfers(s, c.dir, item, t, delta, staff, elevated, writes);
      case ApproveAdjustment(id, actor, elevated, writes) =>
          AdjustmentsLeaveTransfers(s, c.dir, id, actor, elevated, writes);
      case _ =>
    }
    hide ApproveAdjustmentSpec, RequestAdjustmentSpec, A.FirstStage, A.NextStage;
  }

  /** No call changes a stranded transfer: decisions on it are refused, decisions on others do not reach it. */
  lemma StrandedRowStays(s: State, c: Call, t: Id)
    requires Stranded(s, t)
    ensures t < |Step(s, c).transfers| && Step(s, c).transfers[t] == s.transfers[t]
  {
    if c.op.ApproveTransfer? || c.op.RejectTransfer? || c.op.RequestTransfer? {
      TransferDecisionsLeaveOthers(s, c, t);
    } else {
      OtherOpsLeaveTransfers(s, c);
    }
    hide Step;
  }

  lemma {:induction false} StrandedForever(s: State, calls: seq<Call>, t: Id)
    requires Linked(s) && Stranded(s, t)
    ensures var e := Run(s, calls);
            && t < |e.transfers| && e.transfers[t] == s.transfers[t]
            && Executed(e.movements, t) == Executed(s.movements, t)
    decreases |calls|
  {
    if calls != [] {
      var c := calls[0];
      StepKeepsLinks(s, c);
      StrandedRowStays(s, c, t);
      DecidedRowStays(s, c, s.transfers[t].approval.value);
      TransferProgress(s, c, t);
      hide Linked, Step;
      StrandedForever(Step(s, c), calls[1..], t);
    }
  }

  /** The call gets past its guards, and its approval has no chain. */
  ghost predicate CanApproveTransfer(s: State, dir: A.Directory, t: Id, actor: Option<Id>, elevated: bool) {
    && Linked(s) && t < |s.transfers| && s.transfers[t].status == TransferPending && s.transfers[t].approval.Some?
    && A.Actionable(s.approvals, dir, s.transfers[t].approval.value, actor, elevated).Ok?
    && s.approvals.requests[s.transfers[t].approval.value].stageOrder.None?
  }

  predicate TransferCovered(s: State, t: Id)
    requires t < |s.transfers|
  {
    var transfer := s.transfers[t];
    transfer.fromItem < |s.items| && s.items[transfer.fromItem].stock.Get(transfer.stockType) >= transfer.quantity
  }

  lemma TransferOutcome(s: State, dir: A.Directory, t: Id, actor: Option<Id>, elevated: bool, writes: nat)
    requires CanApproveTransfer(s, dir, t, actor, elevated)
    ensures var m := ApproveTransferSpec(s, dir, t, actor, elevated, writes).state;
            && t < |m.transfers|
            && (m.transfers[t].status == Completed <==> TransferCovered(s, t) && writes >= 3)
            && (writes >= 1 && !(TransferCovered(s, t) && writes >= 3) ==>
                  Stranded(m, t) && m.movements == s.movements)
  {
    hide A.FirstStage, FindItem;
    ApprovalTouchesOneRow(s.approvals, dir, s.transfers[t].approval.value, actor, elevated);
  }

  /**
   * An unchained transfer is carried out exactly when the stock covers it and the process survives all
   * three writes. If the approval was written and it is not, the transfer stays PENDING in every
   * continuation and its stock never moves.
   */
  lemma TransferSucceedsOrSticks(s: State, dir: A.Directory, t: Id, actor: Option<Id>, elevated: bool, writes: nat,
                                 later: seq<Call>)
    requires CanApproveTransfer(s, dir, t, actor, elevated)
    ensures var m := ApproveTransferSpec(s, dir, t, actor, elevated, writes).state;
            var e := Run(m, later);
            && t < |m.transfers| && t < |e.transfers|
            && (m.transfers[t].status == Completed <==> TransferCovered(s, t) && writes >= 3)
            && (writes >= 1 && !(TransferCovered(s, t) && writes >= 3) ==>
                  e.transfers[t].status == TransferPending && Executed(e.movements, t) == Executed(s.movements, t))
  {
    var c := Call(dir, ApproveTransfer(t, actor, elevated, writes));
    var m := Step(s, c);
    TransferOutcome(s, dir, t, actor, elevated, writes);
    StepKeepsLinks(s, c);
    TransfersNeverVanish(m, later, t);
    if Stranded(m, t) {
      StrandedForever(m, later, t);
    }
  }

  lemma {:induction false} TransfersNeverVanish(s: State, calls: seq<Call>, t: Id)
    requires Linked(s) && t < |s.transfers|
    ensures t < |Run(s, calls).transfers|
    decreases |calls|
  {
    if calls != [] {
      StepKeepsLinks(s, calls[0]);
      TransferCountGrows(s, calls[0]);
      hide Linked, Step;
      TransfersNeverVanish(Step(s, calls[0]), calls[1..], t);
    }
  }

  lemma TransferCountGrows(s: State, c: Call)
    ensures |s.transfers| <= |Step(s, c).transfers|
  {
    if c.op.ApproveTransfer? || c.op.RejectTransfer? || c.op.RequestTransfer? {
      hide A.ApproveSpec, A.RejectSpec, A.CreateSpec, FindItem;
    } else {
      OtherOpsLeaveTransfers(s, c);
      hide Step;
    }
  }
}

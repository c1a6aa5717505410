/** What a stock call does to every bucket, from its own arguments: direct calls, and requests through to their end. */
module StockEffects {
  import opened Base
  import A = Approval
  import opened Stock
  import opened StockRuns

  /** What the tables hold of one item in one bucket; nothing for an item that does not exist. */
  function Level(s: State, item: Id, t: StockType): int {
    if item < |s.items| then s.items[item].stock.Get(t) else 0
  }

  /** Existing items keep everything but their stock. */
  predicate SameItems(s: State, s2: State) {
    && |s.items| <= |s2.items|
    && forall i: Id | i < |s.items| :: s2.items[i].(stock := s.items[i].stock) == s.items[i]
  }

  // ---- Direct calls ----

  predicate Direct(op: Op) { op.CreateItem? || op.Receive? || op.Reallocate? || op.Deduct? }

  /** When a direct call goes through. */
  predicate Admitted(s: State, op: Op)
    requires Direct(op)
  {
    match op
    case Receive(item, _) => item < |s.items|
    case Deduct(item, t, quantity, _) => item < |s.items| && quantity <= Level(s, item, t)
    case Reallocate(item, from, dest, amount) =>
      item < |s.items| && from != dest && 0 < amount <= Level(s, item, from)
    case CreateItem(name, category, branch, _, priced, _, product) =>
      && !(exists i :: 0 <= i < |s.items| && s.items[i].branch == branch && s.items[i].name == name
                       && s.items[i].category == category)
      && (category == ForSale ==> priced) && product != Some(false)
    case _ => false
  }

  /** What it adds to a bucket. */
  function Change(s: State, op: Op, item: Id, t: StockType): int
    requires Direct(op)
  {
    match op
    case Receive(i, quantity) => if item == i && t == Store then quantity else 0
    case Deduct(i, bucket, quantity, _) => if item == i && t == bucket then -(quantity as int) else 0
    case Reallocate(i, from, dest, amount) =>
      if item != i then 0 else if t == dest then amount else if t == from then -amount else 0
    case CreateItem(_, _, _, initial, _, _, _) => if item == |s.items| && t == Store then initial else 0
    case _ => 0
  }

  predicate Explains(op: Op, m: Movement)
    requires Direct(op)
  {
    match op
    case Receive(_, _) => m.kind == Received && m.origin == NoOrigin
    case Deduct(_, _, _, sale) => m.kind == Sold && m.origin == FromSale(sale)
    case Reallocate(_, _, _, _) => m.kind == Allocated && m.origin == NoOrigin
    case _ => false
  }

  /**
   * A direct call that is admitted changes the one or two buckets its arguments name, and no other; one
   * that is not changes nothing. The movements it logs are of its own kind.
   */
  lemma DirectCallsMove(s: State, c: Call, item: Id, t: StockType)
    requires Direct(c.op)
    ensures var s2 := Step(s, c);
            && Level(s2, item, t) == Level(s, item, t) + (if Admitted(s, c.op) then Change(s, c.op, item, t) else 0)
            && (!Admitted(s, c.op) ==> s2 == s)
            && SameItems(s, s2)
            && (c.op.CreateItem? && Admitted(s, c.op) ==>
                  && |s2.items| == |s.items| + 1 && s2.items[|s.items|].name == c.op.name
                  && s2.items[|s.items|].category == c.op.category && s2.items[|s.items|].branch == c.op.branch
                  && s2.items[|s.items|].lowStockThreshold == c.op.threshold)
            && (!c.op.CreateItem? ==> |s2.items| == |s.items|)
            && s.movements <= s2.movements
            && (forall i | |s.movements| <= i < |s2.movements| :: Explains(c.op, s2.movements[i]))
  {
  }

  // ---- An adjustment, from its request to its end ----

  /** Whoever may act on the new request: an elevated actor, or the one the directory names for the branch. */
  predicate MayDecide(dir: A.Directory, branch: Id, actor: Option<Id>, elevated: bool) {
    || elevated
    || (actor.Some?
        && (if branch in dir.managers then dir.managers[branch] == actor.value else dir.adminStaff == actor))
  }

  /** One approval request was opened behind the others, of this type, for this branch, by this person. */
  predicate OpenedFor(s: State, s2: State, t: A.RequestType, branch: Id, submitter: Option<Id>) {
    var n := |s.approvals.requests|;
    && |s2.approvals.requests| == n + 1 && s2.approvals.requests[..n] == s.approvals.requests
    && s2.approvals.requests[n].requestType == t && s2.approvals.requests[n].branch == Some(branch)
    && s2.approvals.requests[n].submittedBy == submitter && s2.approvals.requests[n].status == A.Pending
  }

  predicate Unchained(s: State, t: A.RequestType) { s.approvals.ChainOf(t) == map[] }

  /** A request leaves stock alone and puts one PENDING row behind the others; an unknown item is refused. */
  lemma AdjustmentRequested(s: State, dir: A.Directory, item: Id, t: StockType, delta: int, staff: Option<Id>)
    ensures var e := RequestAdjustmentSpec(s, dir, item, t, delta, staff, false, ALL_WRITES);
            if item >= |s.items| then e == Ended(s, Threw(NotFound))
            else
              && e.how == Returned && e.state.items == s.items && e.state.movements == s.movements
              && e.state.transfers == s.transfers && e.state.opening == s.opening
              && e.state.adjustments
                 == s.adjustments + [AdjustmentRequest(item, t, delta, |s.approvals.requests|, A.Pending)]
              && e.state.approvals.chains == s.approvals.chains
              && OpenedFor(s, e.state, A.InventoryAdjustment, s.items[item].branch, staff)
              && (Unchained(s, A.InventoryAdjustment) ==>
                    forall actor, elevated | MayDecide(dir, s.items[item].branch, actor, elevated) ::
                      A.Actionable(e.state.approvals, dir, |s.approvals.requests|, actor, elevated).Ok?)
  {
    hide A.FirstStage;
  }

  /** The one bucket of the request gains delta, everything else held stays, and the log says so. */
  ghost predicate MovedFor(s: State, s2: State, item: Id, t: StockType, delta: int, id: Id) {
    && SameItems(s, s2) && |s2.items| == |s.items|
    && (forall i: Id, u: StockType :: Level(s2, i, u) == Level(s, i, u) + if i == item && u == t then delta else 0)
    && s2.movements == s.movements + [Movement(item, Adjustment, t, delta, FromAdjustment(id))]
  }

  /** The request is decided, and so is the approval made for it. */
  predicate Decided(s: State, id: Id, approval: Id, status: A.Status) {
    && id < |s.adjustments| && s.adjustments[id].status == status
    && approval < |s.approvals.requests| && s.approvals.requests[approval].status == status
  }

  /**
   * Requested and then approved, without a chain or a stop: delta goes into the bucket asked for, unless
   * that would leave it below nothing; the approval is given either way.
   */
  lemma AdjustmentCarriedOut(s: State, dir: A.Directory, item: Id, t: StockType, delta: int, staff: Option<Id>,
                             later: A.Directory, actor: Option<Id>, elevated: bool)
    requires item < |s.items| && Unchained(s, A.InventoryAdjustment)
    requires MayDecide(dir, s.items[item].branch, actor, elevated)
    ensures var id, approval := |s.adjustments|, |s.approvals.requests|;
            var s1 := RequestAdjustmentSpec(s, dir, item, t, delta, staff, false, ALL_WRITES).state;
            var e := ApproveAdjustmentSpec(s1, later, id, actor, elevated, ALL_WRITES);
            if Level(s, item, t) + delta >= 0 then
              && e.how == Returned && MovedFor(s, e.state, item, t, delta, id)
              && Decided(e.state, id, approval, A.Approved)
            else
              && e.how == Threw(BadRequest) && e.state.items == s.items && e.state.movements == s.movements
              && e.state.adjustments == s1.adjustments
              && approval < |e.state.approvals.requests| && e.state.approvals.requests[approval].status == A.Approved
  {
    AdjustmentRequested(s, dir, item, t, delta, staff);
    hide A.FirstStage, A.NextStage;
  }

  /** An elevated request is carried out by the same call. */
  lemma ElevatedRequestIsCarriedOut(s: State, dir: A.Directory, item: Id, t: StockType, delta: int, staff: Option<Id>)
    requires item < |s.items| && Unchained(s, A.InventoryAdjustment) && Level(s, item, t) + delta >= 0
    ensures var e := RequestAdjustmentSpec(s, dir, item, t, delta, staff, true, ALL_WRITES);
            && e.how == Returned && MovedFor(s, e.state, item, t, delta, |s.adjustments|)
            && Decided(e.state, |s.adjustments|, |s.approvals.requests|, A.Approved)
  {
    hide A.FirstStage, A.NextStage;
  }

  /** Requested and then rejected: no stock moves, and request and approval are REJECTED. */
  lemma AdjustmentRejected(s: State, dir: A.Directory, item: Id, t: StockType, delta: int, staff: Option<Id>,
                           later: A.Directory, actor: Option<Id>, elevated: bool, reason: string)
    requires item < |s.items| && Unchained(s, A.InventoryAdjustment)
    requires MayDecide(dir, s.items[item].branch, actor, elevated)
    ensures var id, approval := |s.adjustments|, |s.approvals.requests|;
            var s1 := RequestAdjustmentSpec(s, dir, item, t, delta, staff, false, ALL_WRITES).state;
            var e := RejectAdjustmentSpec(s1, later, id, actor, elevated, reason, ALL_WRITES);
            && e.how == Returned && e.state.items == s.items && e.state.movements == s.movements
            && Decided(e.state, id, approval, A.Rejected)
  {
    AdjustmentRequested(s, dir, item, t, delta, staff);
    hide A.FirstStage;
  }

  // ---- A transfer, from its request to its end ----

  /** Refused for an unknown item, its own branch or too little stock; otherwise one row is put behind the others. */
  lemma TransferRequested(s: State, dir: A.Directory, item: Id, toBranch: Id, t: StockType, quantity: Quantity,
                          requestedBy: Id)
    ensures var e := RequestTransferSpec(s, dir, item, toBranch, t, quantity, requestedBy, ALL_WRITES);
            if item >= |s.items| then e == Ended(s, Threw(NotFound))
            else if s.items[item].branch == toBranch || Level(s, item, t) < quantity then
              e == Ended(s, Threw(BadRequest))
            else
              && e.how == Returned && e.state.items == s.items && e.state.movements == s.movements
              && e.state.adjustments == s.adjustments && e.state.opening == s.opening
              && |e.state.transfers| == |s.transfers| + 1 && e.state.transfers[..|s.transfers|] == s.transfers
              && e.state.approvals.chains == s.approvals.chains
              && OpenedFor(s, e.state, A.StockTransfer, s.items[item].branch, Some(requestedBy))
              && (Unchained(s, A.StockTransfer) ==>
                    forall actor, elevated | MayDecide(dir, s.items[item].branch, actor, elevated) ::
                      A.Actionable(e.state.approvals, dir, |s.approvals.requests|, actor, elevated).Ok?)
  {
    hide A.FirstStage;
  }

  predicate Twin(a: Item, branch: Id, b: Item) {
    b.branch == branch && b.name == a.name && b.category == a.category
  }

  /** The quantity has gone from one bucket of the source to the same bucket of its twin in the other branch. */
  ghost predicate Arrived(s: State, s2: State, item: Id, toBranch: Id, t: StockType, quantity: int, twin: Id) {
    && item < |s.items| && SameItems(s, s2) && |s2.items| <= |s.items| + 1
    && twin < |s2.items| && Twin(s.items[item], toBranch, s2.items[twin])
    && (|s2.items| > |s.items| ==>
          && twin == |s.items| && s2.items[twin].lowStockThreshold == s.items[item].lowStockThreshold
          && forall i: Id | i < |s.items| :: !Twin(s.items[item], toBranch, s.items[i]))
    && (forall i: Id, u: StockType ::
          Level(s2, i, u)
          == Level(s, i, u)
             + (if u != t then 0 else if i == item then -quantity else if i == twin then quantity else 0))
  }

  /**
   * Requested and then approved, without a chain or a stop, by whoever runs the source's branch: the
   * quantity leaves the bucket asked for and arrives in the same bucket of the item of that name and
   * category in the branch asked for, which is made if there is none; nothing else held changes.
   */
  lemma RequestedTransferArrives(s: State, dir: A.Directory, item: Id, toBranch: Id, t: StockType, quantity: Quantity,
                                 requestedBy: Id, later: A.Directory, actor: Option<Id>, elevated: bool)
    returns (twin: Id)
    requires item < |s.items| && s.items[item].branch != toBranch && quantity <= Level(s, item, t)
    requires Unchained(s, A.StockTransfer) && MayDecide(dir, s.items[item].branch, actor, elevated)
    ensures var id, approval := |s.transfers|, |s.approvals.requests|;
            var s1 := RequestTransferSpec(s, dir, item, toBranch, t, quantity, requestedBy, ALL_WRITES).state;
            var e := ApproveTransferSpec(s1, later, id, actor, elevated, ALL_WRITES);
            && e.how == Returned && Arrived(s, e.state, item, toBranch, t, quantity, twin)
            && id < |e.state.transfers| && e.state.transfers[id].status == Completed
            && approval < |e.state.approvals.requests| && e.state.approvals.requests[approval].status == A.Approved
            && e.state.movements
               == s.movements + [Movement(item, TransferOut, t, -(quantity as int), FromTransfer(id)),
                                 Movement(twin, TransferIn, t, quantity, FromTransfer(id))]
  {
    TransferRequested(s, dir, item, toBranch, t, quantity, requestedBy);
    var id := |s.transfers|;
    var s1 := RequestTransferSpec(s, dir, item, toBranch, t, quantity, requestedBy, ALL_WRITES).state;
    var s2 := s1.(approvals := A.ApproveSpec(s1.approvals, later, |s.approvals.requests|, actor, elevated, "").value);
    twin := Executed(s2, id);
    SameStock(s, s2, ExecuteTransfer(s2, id), item, toBranch, t, quantity, twin);
    hide A.FirstStage, A.NextStage, FindItem, ExecuteTransfer, Arrived;
  }

  lemma SameStock(s: State, m: State, s2: State, item: Id, toBranch: Id, t: StockType, quantity: int, twin: Id)
    requires m.items == s.items
    ensures Arrived(m, s2, item, toBranch, t, quantity, twin) ==> Arrived(s, s2, item, toBranch, t, quantity, twin)
  {
    if Arrived(m, s2, item, toBranch, t, quantity, twin) {
      forall i: Id, u: StockType ensures Level(s, i, u) == Level(m, i, u) {
      }
    }
  }

  /** The one transaction of a transfer. */
  lemma Executed(s: State, id: Id) returns (twin: Id)
    requires id < |s.transfers| && s.transfers[id].fromItem < |s.items|
    requires s.items[s.transfers[id].fromItem].branch != s.transfers[id].toBranch
    ensures var e, transfer := ExecuteTransfer(s, id), s.transfers[id];
            && Arrived(s, e, transfer.fromItem, transfer.toBranch, transfer.stockType, transfer.quantity, twin)
            && e.transfers == s.transfers[id := transfer.(status := Completed)]
            && e.movements
               == s.movements
                + [Movement(transfer.fromItem, TransferOut, transfer.stockType, -(transfer.quantity as int),
                            FromTransfer(id)),
                   Movement(twin, TransferIn, transfer.stockType, transfer.quantity, FromTransfer(id))]
            && e.approvals == s.approvals && e.adjustments == s.adjustments
  {
    var transfer := s.transfers[id];
    var from := s.items[transfer.fromItem];
    var found := FindItem(s.items, transfer.toBranch, from.name, from.category);
    twin := if found.Some? then found.value else |s.items|;
    hide FindItem;
  }

  /** Requested and then rejected: no stock moves, and transfer and approval are rejected. */
  lemma RequestedTransferRejected(s: State, dir: A.Directory, item: Id, toBranch: Id, t: StockType, quantity: Quantity,
                                  requestedBy: Id, later: A.Directory, actor: Option<Id>, elevated: bool,
                                  reason: string)
    requires item < |s.items| && s.items[item].branch != toBranch && quantity <= Level(s, item, t)
    requires Unchained(s, A.StockTransfer) && MayDecide(dir, s.items[item].branch, actor, elevated)
    ensures var id, approval := |s.transfers|, |s.approvals.requests|;
            var s1 := RequestTransferSpec(s, dir, item, toBranch, t, quantity, requestedBy, ALL_WRITES).state;
            var e := RejectTransferSpec(s1, later, id, actor, elevated, reason, ALL_WRITES);
            && e.how == Returned && e.state.items == s.items && e.state.movements == s.movements
            && id < |e.state.transfers| && e.state.transfers[id].status == TransferRejected
            && approval < |e.state.approvals.requests| && e.state.approvals.requests[approval].status == A.Rejected
  {
    TransferRequested(s, dir, item, toBranch, t, quantity, requestedBy);
    hide A.FirstStage;
  }

  // ---- Handing a decision over ----

  /** Only the approvals differ, and there only the request's own row and log entry. */
  ghost predicate HandedOver(s: State, s2: State, approval: Id, to: Id) {
    && s2.(approvals := s.approvals) == s && s2.approvals.chains == s.approvals.chains
    && approval < |s.approvals.requests| && |s2.approvals.requests| == |s.approvals.requests|
    && s2.approvals.requests == s.approvals.requests[approval := s2.approvals.requests[approval]]
    && forall later: A.Directory ::
         A.Actionable(s2.approvals, later, approval, Some(to), false).Ok?
  }

  /**
   * Whoever may decide on a PENDING adjustment can hand it to a known member of staff, who may then decide on
   * it; a settled one cannot be handed over.
   */
  lemma AdjustmentHandedOver(s: State, dir: A.Directory, id: Id, actor: Option<Id>, elevated: bool, to: Id,
                             reason: string)
    requires id < |s.adjustments|
    ensures var e, r := ReassignAdjustmentSpec(s, dir, id, actor, elevated, to, reason), s.adjustments[id];
            if r.status == A.Pending && to in dir.staff
               && A.Actionable(s.approvals, dir, r.approval, actor, elevated).Ok?
            then e.how == Returned && HandedOver(s, e.state, r.approval, to)
            else e.how.Threw? && e.state == s
  {
  }

  /** The same for a PENDING transfer; one without an approval cannot be handed over. */
  lemma TransferHandedOver(s: State, dir: A.Directory, id: Id, actor: Option<Id>, elevated: bool, to: Id,
                           reason: string)
    requires id < |s.transfers|
    ensures var e, r := ReassignTransferSpec(s, dir, id, actor, elevated, to, reason), s.transfers[id];
            if r.status == TransferPending && r.approval.Some? && to in dir.staff
               && A.Actionable(s.approvals, dir, r.approval.value, actor, elevated).Ok?
            then e.how == Returned && HandedOver(s, e.state, r.approval.value, to)
            else e.how.Threw? && e.state == s
  {
  }

  // ---- A call that stops has written a first part of what it would have written ----

  /** Approval row first, then its log entry, then the movement and its item, then the request's own row. */
  ghost predicate FirstWrites(s: State, m: State, e: State, writes: nat, books: nat, requests: nat) {
    && m.approvals.requests == (if writes >= 1 then e.approvals.requests else s.approvals.requests)
    && m.approvals.actions == (if writes >= 2 then e.approvals.actions else s.approvals.actions)
    && m.approvals.chains == e.approvals.chains == s.approvals.chains
    && (if writes >= books then m.items == e.items && m.movements == e.movements && m.opening == e.opening
        else m.items == s.items && m.movements == s.movements && m.opening == s.opening)
    && m.adjustments == (if writes >= requests then e.adjustments else s.adjustments)
    && m.transfers == (if writes >= requests then e.transfers else s.transfers)
  }

  lemma StoppedAdjustmentRequest(s: State, dir: A.Directory, item: Id, t: StockType, delta: int, staff: Option<Id>,
                                 writes: nat)
    requires item < |s.items|
    ensures FirstWrites(s, RequestAdjustmentSpec(s, dir, item, t, delta, staff, false, writes).state,
                        RequestAdjustmentSpec(s, dir, item, t, delta, staff, false, ALL_WRITES).state, writes, 3, 3)
  {
    hide A.FirstStage;
  }

  lemma StoppedTransferRequest(s: State, dir: A.Directory, item: Id, toBranch: Id, t: StockType, quantity: Quantity,
                               requestedBy: Id, writes: nat)
    ensures FirstWrites(s, RequestTransferSpec(s, dir, item, toBranch, t, quantity, requestedBy, writes).state,
                        RequestTransferSpec(s, dir, item, toBranch, t, quantity, requestedBy, ALL_WRITES).state,
                        writes, 3, 3)
  {
    hide A.FirstStage;
  }

  lemma StoppedAdjustmentApproval(s: State, dir: A.Directory, id: Id, actor: Option<Id>, elevated: bool, writes: nat)
    ensures var e := ApproveAdjustmentSpec(s, dir, id, actor, elevated, ALL_WRITES);
            FirstWrites(s, ApproveAdjustmentSpec(s, dir, id, actor, elevated, writes).state, e.state, writes, 3, 4)
  {
    hide A.ApprovedRow, A.Actionable, ApplyAdjustment;
    if id < |s.adjustments| {
      var request := s.adjustments[id];
      var approved := A.ApproveSpec(s.approvals, dir, request.approval, actor, elevated, "");
      if approved.Ok? && request.item < |s.items| {
        AdjustingLeavesRequests(s.(approvals := approved.value), id);
      }
    }
  }

  lemma AdjustingLeavesRequests(s: State, id: Id)
    requires id < |s.adjustments| && s.adjustments[id].item < |s.items|
    ensures var m := ApplyAdjustment(s, id);
            m.approvals == s.approvals && m.adjustments == s.adjustments && m.transfers == s.transfers
            && m.opening == s.opening
  {
  }

  lemma StoppedAdjustmentRejection(s: State, dir: A.Directory, id: Id, actor: Option<Id>, elevated: bool,
                                   reason: string, writes: nat)
    ensures var e := RejectAdjustmentSpec(s, dir, id, actor, elevated, reason, ALL_WRITES);
            FirstWrites(s, RejectAdjustmentSpec(s, dir, id, actor, elevated, reason, writes).state, e.state,
                        writes, 3, 3)
  {
    hide A.Actionable;
  }

  lemma StoppedTransferApproval(s: State, dir: A.Directory, id: Id, actor: Option<Id>, elevated: bool, writes: nat)
    requires id < |s.transfers| && s.transfers[id].approval.Some?
    ensures var e := ApproveTransferSpec(s, dir, id, actor, elevated, ALL_WRITES);
            FirstWrites(s, ApproveTransferSpec(s, dir, id, actor, elevated, writes).state, e.state, writes, 3, 3)
  {
    hide A.ApprovedRow, A.Actionable, ExecuteTransfer;
    var approved := A.ApproveSpec(s.approvals, dir, s.transfers[id].approval.value, actor, elevated, "");
    if approved.Ok? && s.transfers[id].fromItem < |s.items| {
      ExecutionLeavesApprovals(s.(approvals := approved.value), id);
    }
  }

  lemma StoppedTransferRejection(s: State, dir: A.Directory, id: Id, actor: Option<Id>, elevated: bool, reason: string,
                                 writes: nat)
    requires id < |s.transfers| && s.transfers[id].approval.Some?
    ensures var e := RejectTransferSpec(s, dir, id, actor, elevated, reason, ALL_WRITES);
            FirstWrites(s, RejectTransferSpec(s, dir, id, actor, elevated, reason, writes).state, e.state, writes, 3, 3)
  {
    hide A.Actionable;
  }

  lemma ExecutionLeavesApprovals(s: State, id: Id)
    requires id < |s.transfers| && s.transfers[id].fromItem < |s.items|
    ensures ExecuteTransfer(s, id).approvals == s.approvals && ExecuteTransfer(s, id).adjustments == s.adjustments
  {
    hide FindItem;
  }

  /** A transfer from before approvals were kept: anybody let in decides on it, and no approval is touched. */
  lemma LegacyTransferNeedsNoApproval(s: State, dir: A.Directory, id: Id, actor: Option<Id>, elevated: bool,
                                      reason: string) returns (twin: Id)
    requires id < |s.transfers| && s.transfers[id].approval.None? && s.transfers[id].status == TransferPending
    requires s.transfers[id].fromItem < |s.items|
    requires s.items[s.transfers[id].fromItem].branch != s.transfers[id].toBranch
    ensures var e, row := ApproveTransferSpec(s, dir, id, actor, elevated, ALL_WRITES), s.transfers[id];
            if row.quantity <= Level(s, row.fromItem, row.stockType) then
              && e.how == Returned && Arrived(s, e.state, row.fromItem, row.toBranch, row.stockType, row.quantity, twin)
              && e.state.transfers == s.transfers[id := row.(status := Completed)] && e.state.approvals == s.approvals
            else e == Ended(s, Threw(BadRequest))
    ensures RejectTransferSpec(s, dir, id, actor, elevated, reason, ALL_WRITES)
         == Ended(s.(transfers := s.transfers[id := s.transfers[id].(status := TransferRejected)]), Returned)
  {
    twin := Executed(s, id);
    hide ExecuteTransfer, Arrived;
  }
}

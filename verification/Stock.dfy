/**
 * The stock ledger: three buckets per item, an append-only movement log, and the
 * adjustment and transfer requests whose execution is gated by the approval engine.
 */
module Stock {
  import opened Base
  import A = Approval

  datatype StockType = Store | Sales | Usage

  datatype Buckets = Buckets(store: int, sales: int, usage: int)
  {
    function Get(t: StockType): int {
      match t case Store => store case Sales => sales case Usage => usage
    }

    function With(t: StockType, v: int): Buckets {
      match t case Store => this.(store := v) case Sales => this.(sales := v) case Usage => this.(usage := v)
    }

    function Total(): int { store + sales + usage }
  }

  const EMPTY_BUCKETS := Buckets(0, 0, 0)

  datatype Category = ForSale | InternalUse | Storage

  datatype Item = Item(name: string, category: Category, branch: Id, stock: Buckets, lowStockThreshold: int)
  {
    function Plus(t: StockType, delta: int): Item {
      this.(stock := stock.With(t, stock.Get(t) + delta))
    }
  }

  datatype MovementType = Received | Sold | Adjustment | TransferOut | TransferIn | Allocated

  /**
   * What a movement was written for. The table stores the sale or transfer in
   * referenceId; the link to an adjustment request is a history variable.
   */
  datatype Origin = NoOrigin | FromSale(sale: Option<Id>) | FromTransfer(transfer: Id) | FromAdjustment(request: Id)

  datatype Movement = Movement(item: Id, kind: MovementType, stockType: StockType, delta: int, origin: Origin)

  datatype AdjustmentRequest = AdjustmentRequest(item: Id, stockType: StockType, delta: int, approval: Id,
                                                 status: A.Status)

  datatype TransferStatus = TransferPending | TransferRejected | Completed

  /** Quantities the request validators admit. */
  type Quantity = q: int | q > 0 witness 1

  datatype Transfer = Transfer(
    fromItem: Id, toBranch: Id, stockType: StockType, quantity: Quantity, approval: Option<Id>, status: TransferStatus)

  /** All tables. `opening` is a history variable: what each item held when it was created. */
  datatype State = State(
    items: seq<Item>,
    movements: seq<Movement>,
    adjustments: seq<AdjustmentRequest>,
    transfers: seq<Transfer>,
    approvals: A.State,
    opening: seq<Buckets>)

  /** How a call ended: with a value, with an exception, or because the process stopped between two writes. */
  datatype Ending = Returned | Threw(error: Error) | Stopped

  datatype Ended = Ended(state: State, how: Ending)

  /** Enough writes for any call to run to its end. */
  const ALL_WRITES: nat := 7

  // ---- Single-transaction operations ----

  function FindItemFrom(items: seq<Item>, branch: Id, name: string, category: Category, from: Id): (r: Option<Id>)
    requires from <= |items|
    ensures r.Some? ==>
              from <= r.value < |items| && items[r.value].branch == branch
              && items[r.value].name == name && items[r.value].category == category
    ensures r.None? ==> forall i | from <= i < |items| ::
              !(items[i].branch == branch && items[i].name == name && items[i].category == category)
    decreases |items| - from
  {
    if from == |items| then None
    else if items[from].branch == branch && items[from].name == name && items[from].category == category then Some(from)
    else FindItemFrom(items, branch, name, category, from + 1)
  }

  function FindItem(items: seq<Item>, branch: Id, name: string, category: Category): (r: Option<Id>)
    ensures r.Some? ==>
              r.value < |items| && items[r.value].branch == branch
              && items[r.value].name == name && items[r.value].category == category
    ensures r.None? ==> forall i | 0 <= i < |items| ::
              !(items[i].branch == branch && items[i].name == name && items[i].category == category)
  {
    FindItemFrom(items, branch, name, category, 0)
  }

  /** `product` tells whether the product master record named by the request exists, if it names one. */
  function CreateItemSpec(s: State, name: string, category: Category, branch: Id, initial: nat, priced: bool,
                          threshold: int, product: Option<bool>): Result<State>
  {
    if FindItem(s.items, branch, name, category).Some? then Err(BadRequest)
    else if category == ForSale && !priced then Err(BadRequest)
    else if product == Some(false) then Err(BadRequest)
    else
      var stock := Buckets(initial, 0, 0);
      Ok(s.(items := s.items + [Item(name, category, branch, stock, threshold)], opening := s.opening + [stock]))
  }

  /** Adds to one bucket and writes the movement that says so. */
  function Move(s: State, item: Id, kind: MovementType, t: StockType, delta: int, origin: Origin): State
    requires item < |s.items|
  {
    s.(items := s.items[item := s.items[item].Plus(t, delta)],
       movements := s.movements + [Movement(item, kind, t, delta, origin)])
  }

  function ReceiveSpec(s: State, item: Id, quantity: Quantity): Result<State> {
    if item >= |s.items| then Err(NotFound) else Ok(Move(s, item, Received, Store, quantity, NoOrigin))
  }

  function ReallocateSpec(s: State, item: Id, from: StockType, to: StockType, quantity: int): Result<State> {
    if from == to || quantity <= 0 then Err(BadRequest)
    else if item >= |s.items| then Err(NotFound)
    else if s.items[item].stock.Get(from) < quantity then Err(BadRequest)
    else Ok(Move(Move(s, item, Allocated, from, -quantity, NoOrigin), item, Allocated, to, quantity, NoOrigin))
  }

  function DeductSpec(s: State, item: Id, t: StockType, quantity: Quantity, sale: Option<Id>): Result<State> {
    if item >= |s.items| then Err(NotFound)
    else if s.items[item].stock.Get(t) < quantity then Err(BadRequest)
    else Ok(Move(s, item, Sold, t, -(quantity as int), FromSale(sale)))
  }

  // ---- Adjustments: several writes, the process may stop after any of them ----

  function WithAdjustment(s: State, id: Id, status: A.Status): State
    requires id < |s.adjustments|
  {
    s.(adjustments := s.adjustments[id := s.adjustments[id].(status := status)])
  }

  function ApplyAdjustment(s: State, id: Id): State
    requires id < |s.adjustments| && s.adjustments[id].item < |s.items|
  {
    var r := s.adjustments[id];
    Move(s, r.item, Adjustment, r.stockType, r.delta, FromAdjustment(id))
  }

  /**
   * Writes in order: the approval row, its action row, item and movement together,
   * the request's own status. The stock check happens after the first two.
   */
  function ApproveAdjustmentSpec(s: State, dir: A.Directory, id: Id, actor: Option<Id>, elevated: bool,
                                 writes: nat): Ended
  {
    if id >= |s.adjustments| then Ended(s, Threw(NotFound))
    else
      var request := s.adjustments[id];
      if request.status != A.Pending then Ended(s, Threw(BadRequest))
      else
        match A.ApproveSpec(s.approvals, dir, request.approval, actor, elevated, "")
        case Err(e) => Ended(s, Threw(e))
        case Ok(approved) =>
          if writes == 0 then Ended(s, Stopped)
          else if writes == 1 then Ended(s.(approvals := A.ApproveWrite(s.approvals, request.approval)), Stopped)
          else
            var s2 := s.(approvals := approved);
            if request.item >= |s.items| then Ended(s2, Threw(NotFound))
            else if s.items[request.item].stock.Get(request.stockType) + request.delta < 0
                then Ended(s2, Threw(BadRequest))
            else if writes == 2 then Ended(s2, Stopped)
            else
              var s3 := ApplyAdjustment(s2, id);
              if writes == 3 then Ended(s3, Stopped)
              else Ended(WithAdjustment(s3, id, A.Approved), Returned)
  }

  /** Writes: approval row, action row, adjustment row; then, for an elevated submitter, those of the approval. */
  function RequestAdjustmentSpec(s: State, dir: A.Directory, item: Id, t: StockType, delta: int, staff: Option<Id>,
                                 elevated: bool, writes: nat): Ended
  {
    if item >= |s.items| then Ended(s, Threw(NotFound))
    else
      var branch := Some(s.items[item].branch);
      var row := A.NewRow(s.approvals, dir, A.InventoryAdjustment, branch, staff, None);
      if writes == 0 then Ended(s, Stopped)
      else if writes == 1 then Ended(s.(approvals := A.CreateWrite(s.approvals, row)), Stopped)
      else
        var s2 := s.(approvals := A.CreateSpec(s.approvals, dir, A.InventoryAdjustment, branch, staff, None));
        if writes == 2 then Ended(s2, Stopped)
        else
          var request := AdjustmentRequest(item, t, delta, |s.approvals.requests|, A.Pending);
          var s3 := s2.(adjustments := s2.adjustments + [request]);
          if elevated then ApproveAdjustmentSpec(s3, dir, |s.adjustments|, staff, true, writes - 3)
          else if writes == 3 then Ended(s3, Stopped)
          else Ended(s3, Returned)
  }

  function RejectAdjustmentSpec(s: State, dir: A.Directory, id: Id, actor: Option<Id>, elevated: bool, reason: string,
                                writes: nat): Ended
  {
    if id >= |s.adjustments| then Ended(s, Threw(NotFound))
    else
      var request := s.adjustments[id];
      if request.status != A.Pending then Ended(s, Threw(BadRequest))
      else
        match A.RejectSpec(s.approvals, dir, request.approval, actor, elevated, reason)
        case Err(e) => Ended(s, Threw(e))
        case Ok(rejected) =>
          if writes == 0 then Ended(s, Stopped)
          else if writes == 1 then Ended(s.(approvals := A.RejectWrite(s.approvals, request.approval)), Stopped)
          else
            var s2 := s.(approvals := rejected);
            if writes == 2 then Ended(s2, Stopped) else Ended(WithAdjustment(s2, id, A.Rejected), Returned)
  }

  function ReassignAdjustmentSpec(s: State, dir: A.Directory, id: Id, actor: Option<Id>, elevated: bool, to: Id,
                                  reason: string): Ended
  {
    if id >= |s.adjustments| then Ended(s, Threw(NotFound))
    else if s.adjustments[id].status != A.Pending then Ended(s, Threw(BadRequest))
    else
      match A.ReassignSpec(s.approvals, dir, s.adjustments[id].approval, actor, elevated, to, reason)
      case Err(e) => Ended(s, Threw(e))
      case Ok(reassigned) => Ended(s.(approvals := reassigned), Returned)
  }

  // ---- Transfers between branches ----

  /** Writes: approval row, action row, transfer row. */
  function RequestTransferSpec(s: State, dir: A.Directory, fromItem: Id, toBranch: Id, t: StockType, quantity: Quantity,
                               requestedBy: Id, writes: nat): Ended
  {
    if fromItem >= |s.items| then Ended(s, Threw(NotFound))
    else if s.items[fromItem].branch == toBranch then Ended(s, Threw(BadRequest))
    else if s.items[fromItem].stock.Get(t) < quantity then Ended(s, Threw(BadRequest))
    else
      var branch := Some(s.items[fromItem].branch);
      var row := A.NewRow(s.approvals, dir, A.StockTransfer, branch, Some(requestedBy), None);
      if writes == 0 then Ended(s, Stopped)
      else if writes == 1 then Ended(s.(approvals := A.CreateWrite(s.approvals, row)), Stopped)
      else
        var s2 := s.(approvals := A.CreateSpec(s.approvals, dir, A.StockTransfer, branch, Some(requestedBy), None));
        if writes == 2 then Ended(s2, Stopped)
        else
          var transfer := Transfer(fromItem, toBranch, t, quantity, Some(|s.approvals.requests|), TransferPending);
          Ended(s2.(transfers := s2.transfers + [transfer]), Returned)
  }

  /** One transaction: debit the source, find or create the destination, credit it, log both sides, complete. */
  function ExecuteTransfer(s: State, id: Id): State
    requires id < |s.transfers| && s.transfers[id].fromItem < |s.items|
  {
    var transfer := s.transfers[id];
    var from := s.items[transfer.fromItem];
    var found := FindItem(s.items, transfer.toBranch, from.name, from.category);
    var s1 := Move(s, transfer.fromItem, TransferOut, transfer.stockType, -(transfer.quantity as int),
                   FromTransfer(id));
    var s2 :=
      if found.Some? then s1
      else s1.(items :=
               s1.items + [Item(from.name, from.category, transfer.toBranch, EMPTY_BUCKETS, from.lowStockThreshold)],
               opening := s1.opening + [EMPTY_BUCKETS]);
    var to := if found.Some? then found.value else |s.items|;
    var s3 := Move(s2, to, TransferIn, transfer.stockType, transfer.quantity, FromTransfer(id));
    s3.(transfers := s3.transfers[id := transfer.(status := Completed)])
  }

  /** Writes: approval row and action row (unless a legacy row has no approval), then the one transaction. */
  function ApproveTransferSpec(s: State, dir: A.Directory, id: Id, actor: Option<Id>, elevated: bool,
                               writes: nat): Ended
  {
    if id >= |s.transfers| then Ended(s, Threw(NotFound))
    else
      var transfer := s.transfers[id];
      if transfer.status != TransferPending then Ended(s, Threw(BadRequest))
      else if transfer.approval.None? then ApproveTransferTail(s, id, writes)
      else
        match A.ApproveSpec(s.approvals, dir, transfer.approval.value, actor, elevated, "")
        case Err(e) => Ended(s, Threw(e))
        case Ok(approved) =>
          if writes == 0 then Ended(s, Stopped)
          else if writes == 1 then Ended(s.(approvals := A.ApproveWrite(s.approvals, transfer.approval.value)), Stopped)
          else ApproveTransferTail(s.(approvals := approved), id, writes - 2)
  }

  function ApproveTransferTail(s: State, id: Id, writes: nat): Ended
    requires id < |s.transfers|
  {
    var transfer := s.transfers[id];
    if transfer.fromItem >= |s.items| then Ended(s, Threw(BadRequest))
    else if s.items[transfer.fromItem].stock.Get(transfer.stockType) < transfer.quantity
        then Ended(s, Threw(BadRequest))
    else if writes == 0 then Ended(s, Stopped)
    else Ended(ExecuteTransfer(s, id), Returned)
  }

  function RejectTransferSpec(s: State, dir: A.Directory, id: Id, actor: Option<Id>, elevated: bool, reason: string,
                              writes: nat): Ended
  {
    if id >= |s.transfers| then Ended(s, Threw(NotFound))
    else
      var transfer := s.transfers[id];
      if transfer.status != TransferPending then Ended(s, Threw(BadRequest))
      else if transfer.approval.None? then RejectTransferTail(s, id, writes)
      else
        match A.RejectSpec(s.approvals, dir, transfer.approval.value, actor, elevated, reason)
        case Err(e) => Ended(s, Threw(e))
        case Ok(rejected) =>
          if writes == 0 then Ended(s, Stopped)
          else if writes == 1 then Ended(s.(approvals := A.RejectWrite(s.approvals, transfer.approval.value)), Stopped)
          else RejectTransferTail(s.(approvals := rejected), id, writes - 2)
  }

  function RejectTransferTail(s: State, id: Id, writes: nat): Ended
    requires id < |s.transfers|
  {
    if writes == 0 then Ended(s, Stopped)
    else Ended(s.(transfers := s.transfers[id := s.transfers[id].(status := TransferRejected)]), Returned)
  }

  function ReassignTransferSpec(s: State, dir: A.Directory, id: Id, actor: Option<Id>, elevated: bool, to: Id,
                                reason: string): Ended
  {
    if id >= |s.transfers| then Ended(s, Threw(NotFound))
    else if s.transfers[id].status != TransferPending || s.transfers[id].approval.None? then Ended(s, Threw(BadRequest))
    else
      match A.ReassignSpec(s.approvals, dir, s.transfers[id].approval.value, actor, elevated, to, reason)
      case Err(e) => Ended(s, Threw(e))
      case Ok(reassigned) => Ended(s.(approvals := reassigned), Returned)
  }

  // ---- The service ----

  ghost predicate Committed(spec: Result<State>, before: State, after: State, how: Ending) {
    match spec
    case Ok(s) => after == s && how == Returned
    case Err(e) => after == before && how == Threw(e)
  }

  class InventoryService {
    const approvalService: A.ApprovalService
    var items: seq<Item>
    var movements: seq<Movement>
    var adjustments: seq<AdjustmentRequest>
    var transfers: seq<Transfer>
    ghost var opening: seq<Buckets>

    constructor (approvalService: A.ApprovalService)
      ensures this.approvalService == approvalService
      ensures Tables() == State([], [], [], [], approvalService.Tables(), [])
    {
      this.approvalService := approvalService;
      items, movements, adjustments, transfers, opening := [], [], [], [], [];
    }

    ghost function Tables(): State
      reads this, approvalService
    {
      State(items, movements, adjustments, transfers, approvalService.Tables(), opening)
    }

    method CreateItem(name: string, category: Category, branch: Id, initial: nat, priced: bool, threshold: int,
                      product: Option<bool>) returns (how: Ending)
      modifies this
      ensures Committed(CreateItemSpec(old(Tables()), name, category, branch, initial, priced, threshold, product),
                        old(Tables()), Tables(), how)
    {
      if FindItem(items, branch, name, category).Some? {
        return Threw(BadRequest);
      }
      if category == ForSale && !priced {
        return Threw(BadRequest);
      }
      if product == Some(false) {
        return Threw(BadRequest);
      }
      var stock := Buckets(initial, 0, 0);
      items := items + [Item(name, category, branch, stock, threshold)];
      opening := opening + [stock];
      how := Returned;
    }

    method ReceiveGoods(item: Id, quantity: Quantity) returns (how: Ending)
      modifies this
      ensures Committed(ReceiveSpec(old(Tables()), item, quantity), old(Tables()), Tables(), how)
    {
      if item >= |items| {
        return Threw(NotFound);
      }
      items := items[item := items[item].Plus(Store, quantity)];
      movements := movements + [Movement(item, Received, Store, quantity, NoOrigin)];
      how := Returned;
    }

    method TransferBetweenStockTypes(item: Id, from: StockType, to: StockType, quantity: int) returns (how: Ending)
      modifies this
      ensures Committed(ReallocateSpec(old(Tables()), item, from, to, quantity), old(Tables()), Tables(), how)
    {
      if from == to || quantity <= 0 {
        return Threw(BadRequest);
      }
      if item >= |items| {
        return Threw(NotFound);
      }
      var stock := items[item].stock;
      var available := stock.Get(from);
      if available < quantity {
        return Threw(BadRequest);
      }
      var newFrom := available - quantity;
      var newTo := stock.Get(to) + quantity;
      items := items[item := items[item].(stock := stock.With(from, newFrom).With(to, newTo))];
      movements := movements + [Movement(item, Allocated, from, -quantity, NoOrigin)];
      movements := movements + [Movement(item, Allocated, to, quantity, NoOrigin)];
      how := Returned;
    }

    method DeductForSale(item: Id, t: StockType, quantity: Quantity, sale: Option<Id>) returns (how: Ending)
      modifies this
      ensures Committed(DeductSpec(old(Tables()), item, t, quantity, sale), old(Tables()), Tables(), how)
    {
      if item >= |items| {
        return Threw(NotFound);
      }
      if items[item].stock.Get(t) < quantity {
        return Threw(BadRequest);
      }
      items := items[item := items[item].Plus(t, -(quantity as int))];
      movements := movements + [Movement(item, Sold, t, -(quantity as int), FromSale(sale))];
      how := Returned;
    }

    method RequestStockAdjustment(dir: A.Directory, item: Id, t: StockType, delta: int, staff: Option<Id>,
                                  elevated: bool)
      returns (how: Ending)
      modifies this, approvalService
      ensures Ended(Tables(), how)
                == RequestAdjustmentSpec(old(Tables()), dir, item, t, delta, staff, elevated, ALL_WRITES)
    {
      if item >= |items| {
        return Threw(NotFound);
      }
      var approval := approvalService.Create(dir, A.InventoryAdjustment, Some(items[item].branch), staff, None);
      var id := |adjustments|;
      adjustments := adjustments + [AdjustmentRequest(item, t, delta, approval, A.Pending)];
      if elevated {
        how := ApproveStockAdjustment(dir, id, staff, true);
      } else {
        how := Returned;
      }
    }

    method ApproveStockAdjustment(dir: A.Directory, id: Id, actor: Option<Id>, elevated: bool) returns (how: Ending)
      modifies this, approvalService
      ensures Ended(Tables(), how) == ApproveAdjustmentSpec(old(Tables()), dir, id, actor, elevated, 4)
    {
      if id >= |adjustments| {
        return Threw(NotFound);
      }
      var request := adjustments[id];
      if request.status != A.Pending {
        return Threw(BadRequest);
      }
      var approved := approvalService.Approve(dir, request.approval, actor, elevated, "");
      if approved.Err? {
        return Threw(approved.error);
      }
      if request.item >= |items| {
        return Threw(NotFound);
      }
      var newQuantity := items[request.item].stock.Get(request.stockType) + request.delta;
      if newQuantity < 0 {
        return Threw(BadRequest);
      }
      items := items[request.item :=
                     items[request.item].(stock := items[request.item].stock.With(request.stockType, newQuantity))];
      movements := movements
          + [Movement(request.item, Adjustment, request.stockType, request.delta, FromAdjustment(id))];
      adjustments := adjustments[id := request.(status := A.Approved)];
      how := Returned;
    }

    method RejectStockAdjustment(dir: A.Directory, id: Id, actor: Option<Id>, elevated: bool, reason: string)
      returns (how: Ending)
      modifies this, approvalService
      ensures Ended(Tables(), how) == RejectAdjustmentSpec(old(Tables()), dir, id, actor, elevated, reason, ALL_WRITES)
    {
      if id >= |adjustments| {
        return Threw(NotFound);
      }
      var request := adjustments[id];
      if request.status != A.Pending {
        return Threw(BadRequest);
      }
      var rejected := approvalService.Reject(dir, request.approval, actor, elevated, reason);
      if rejected.Err? {
        return Threw(rejected.error);
      }
      adjustments := adjustments[id := request.(status := A.Rejected)];
      how := Returned;
    }

    method RequestTransfer(dir: A.Directory, fromItem: Id, toBranch: Id, t: StockType, quantity: Quantity,
                           requestedBy: Id)
      returns (how: Ending)
      modifies this, approvalService
      ensures Ended(Tables(), how)
           == RequestTransferSpec(old(Tables()), dir, fromItem, toBranch, t, quantity, requestedBy, ALL_WRITES)
    {
      if fromItem >= |items| {
        return Threw(NotFound);
      }
      if items[fromItem].branch == toBranch {
        return Threw(BadRequest);
      }
      if items[fromItem].stock.Get(t) < quantity {
        return Threw(BadRequest);
      }
      var approval :=
          approvalService.Create(dir, A.StockTransfer, Some(items[fromItem].branch), Some(requestedBy), None);
      transfers := transfers + [Transfer(fromItem, toBranch, t, quantity, Some(approval), TransferPending)];
      how := Returned;
    }

    method ApproveTransfer(dir: A.Directory, id: Id, actor: Option<Id>, elevated: bool) returns (how: Ending)
      modifies this, approvalService
      ensures Ended(Tables(), how) == ApproveTransferSpec(old(Tables()), dir, id, actor, elevated, ALL_WRITES)
    {
      if id >= |transfers| {
        return Threw(NotFound);
      }
      var transfer := transfers[id];
      if transfer.status != TransferPending {
        return Threw(BadRequest);
      }
      if transfer.approval.Some? {
        var approved := approvalService.Approve(dir, transfer.approval.value, actor, elevated, "");
        if approved.Err? {
          return Threw(approved.error);
        }
      }
      var source := transfer.fromItem;
      if source >= |items| || items[source].stock.Get(transfer.stockType) < transfer.quantity {
        return Threw(BadRequest);
      }
      Execute(id);
      how := Returned;
    }

    /** The one transaction of a transfer. */
    method Execute(id: Id)
      requires id < |transfers| && transfers[id].fromItem < |items|
      modifies this
      ensures Tables() == ExecuteTransfer(old(Tables()), id)
    {
      var transfer := transfers[id];
      var source := transfer.fromItem;
      var from := items[source];
      var found := FindItem(items, transfer.toBranch, from.name, from.category);
      items := items[source := from.Plus(transfer.stockType, -(transfer.quantity as int))];
      var to := |items|;
      if found.Some? {
        to := found.value;
      } else {
        items := items + [Item(from.name, from.category, transfer.toBranch, EMPTY_BUCKETS, from.lowStockThreshold)];
        opening := opening + [EMPTY_BUCKETS];
      }
      items := items[to := items[to].Plus(transfer.stockType, transfer.quantity)];
      movements := movements
          + [Movement(source, TransferOut, transfer.stockType, -(transfer.quantity as int), FromTransfer(id))];
      movements := movements + [Movement(to, TransferIn, transfer.stockType, transfer.quantity, FromTransfer(id))];
      transfers := transfers[id := transfer.(status := Completed)];
    }

    method RejectTransfer(dir: A.Directory, id: Id, actor: Option<Id>, elevated: bool, reason: string)
      returns (how: Ending)
      modifies this, approvalService
      ensures Ended(Tables(), how) == RejectTransferSpec(old(Tables()), dir, id, actor, elevated, reason, ALL_WRITES)
    {
      if id >= |transfers| {
        return Threw(NotFound);
      }
      var transfer := transfers[id];
      if transfer.status != TransferPending {
        return Threw(BadRequest);
      }
      if transfer.approval.Some? {
        var rejected := approvalService.Reject(dir, transfer.approval.value, actor, elevated, reason);
        if rejected.Err? {
          return Threw(rejected.error);
        }
      }
      transfers := transfers[id := transfer.(status := TransferRejected)];
      how := Returned;
    }
  }
}

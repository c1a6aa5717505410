/** Runs of the stock service: the ledger balances and only outside movements change what is held. */
module StockRuns {
  import opened Base
  import A = Approval
  import opened Stock

  datatype Op =
    | CreateItem(name: string, category: Category, branch: Id, initial: nat, priced: bool, threshold: int,
                 product: Option<bool>)
    | Receive(item: Id, quantity: Quantity)
    | Reallocate(item: Id, from: StockType, dest: StockType, amount: int)
    | Deduct(item: Id, t: StockType, quantity: Quantity, sale: Option<Id>)
    | RequestAdjustment(item: Id, t: StockType, delta: int, staff: Option<Id>, elevated: bool, writes: nat)
    | ApproveAdjustment(id: Id, actor: Option<Id>, elevated: bool, writes: nat)
    | RejectAdjustment(id: Id, actor: Option<Id>, elevated: bool, reason: string, writes: nat)
    | ReassignAdjustment(id: Id, actor: Option<Id>, elevated: bool, to: Id, reason: string)
    | RequestTransfer(item: Id, toBranch: Id, t: StockType, quantity: Quantity, requestedBy: Id, writes: nat)
    | ApproveTransfer(id: Id, actor: Option<Id>, elevated: bool, writes: nat)
    | RejectTransfer(id: Id, actor: Option<Id>, elevated: bool, reason: string, writes: nat)
    | ReassignTransfer(id: Id, actor: Option<Id>, elevated: bool, to: Id, reason: string)
    | SetChain(requestType: A.RequestType, roleIds: seq<Id>)
    | DeleteRole(role: Id)

  datatype Call = Call(dir: A.Directory, op: Op)

  function OrUnchanged(s: State, r: Result<State>): State {
    match r case Ok(after) => after case Err(_) => s
  }

  /** One call, from its start to wherever it ended or the process stopped. */
  function Step(s: State, c: Call): State {
    match c.op
    case CreateItem(name, category, branch, initial, priced, threshold, product) =>
      OrUnchanged(s, CreateItemSpec(s, name, category, branch, initial, priced, threshold, product))
    case Receive(item, quantity) => OrUnchanged(s, ReceiveSpec(s, item, quantity))
    case Reallocate(item, from, dest, amount) => OrUnchanged(s, ReallocateSpec(s, item, from, dest, amount))
    case Deduct(item, t, quantity, sale) => OrUnchanged(s, DeductSpec(s, item, t, quantity, sale))
    case RequestAdjustment(item, t, delta, staff, elevated, writes) =>
      RequestAdjustmentSpec(s, c.dir, item, t, delta, staff, elevated, writes).state
    case ApproveAdjustment(id, actor, elevated, writes) =>
      ApproveAdjustmentSpec(s, c.dir, id, actor, elevated, writes).state
    case RejectAdjustment(id, actor, elevated, reason, writes) =>
      RejectAdjustmentSpec(s, c.dir, id, actor, elevated, reason, writes).state
    case ReassignAdjustment(id, actor, elevated, to, reason) =>
      ReassignAdjustmentSpec(s, c.dir, id, actor, elevated, to, reason).state
    case RequestTransfer(item, toBranch, t, quantity, requestedBy, writes) =>
      RequestTransferSpec(s, c.dir, item, toBranch, t, quantity, requestedBy, writes).state
    case ApproveTransfer(id, actor, elevated, writes) =>
      ApproveTransferSpec(s, c.dir, id, actor, elevated, writes).state
    case RejectTransfer(id, actor, elevated, reason, writes) =>
      RejectTransferSpec(s, c.dir, id, actor, elevated, reason, writes).state
    case ReassignTransfer(id, actor, elevated, to, reason) =>
      ReassignTransferSpec(s, c.dir, id, actor, elevated, to, reason).state
    case SetChain(t, roleIds) => s.(approvals := A.SetChainSpec(s.approvals, t, roleIds))
    case DeleteRole(role) => s.(approvals := A.DeleteRoleSpec(s.approvals, role))
  }

  function Run(s: State, calls: seq<Call>): State
    decreases |calls|
  {
    if calls == [] then s else Run(Step(s, calls[0]), calls[1..])
  }

  const EMPTY := State([], [], [], [], A.State([], [], map[]), [])

  lemma {:induction false} RunConcat(s: State, a: seq<Call>, b: seq<Call>)
    ensures Run(s, a + b) == Run(Run(s, a), b)
    decreases |a|
  {
    hide Step;
    if a == [] {
      assert a + b == b;
    } else {
      assert (a + b)[1..] == a[1..] + b;
      RunConcat(Step(s, a[0]), a[1..], b);
    }
  }

  // ---- Sums over the tables ----

  /** What the log says moved in one bucket of one item. */
  function Moved(log: seq<Movement>, item: Id, t: StockType): int {
    if log == [] then 0
    else
      var m := log[|log| - 1];
      Moved(log[..|log| - 1], item, t) + if m.item == item && m.stockType == t then m.delta else 0
  }

  function BucketTotal(stock: seq<Buckets>, t: StockType): int {
    if stock == [] then 0 else BucketTotal(stock[..|stock| - 1], t) + stock[|stock| - 1].Get(t)
  }

  function Held(items: seq<Item>, t: StockType): int {
    if items == [] then 0 else Held(items[..|items| - 1], t) + items[|items| - 1].stock.Get(t)
  }

  function GrandTotal(items: seq<Item>): int {
    Held(items, Store) + Held(items, Sales) + Held(items, Usage)
  }

  function GrandOpening(opening: seq<Buckets>): int {
    BucketTotal(opening, Store) + BucketTotal(opening, Sales) + BucketTotal(opening, Usage)
  }

  /** The kinds of movement that bring stock in from, or take it out to, the outside. */
  predicate External(kind: MovementType) { kind == Received || kind == Sold || kind == Adjustment }

  function ExternalFlow(log: seq<Movement>): int {
    if log == [] then 0
    else
      var m := log[|log| - 1];
      ExternalFlow(log[..|log| - 1]) + if External(m.kind) then m.delta else 0
  }

  lemma MovedAppend(log: seq<Movement>, m: Movement, item: Id, t: StockType)
    ensures Moved(log + [m], item, t) == Moved(log, item, t) + if m.item == item && m.stockType == t then m.delta else 0
  {
  }

  lemma ExternalFlowAppend(log: seq<Movement>, m: Movement)
    ensures ExternalFlow(log + [m]) == ExternalFlow(log) + if External(m.kind) then m.delta else 0
  {
  }

  lemma {:induction false} HeldUpdate(items: seq<Item>, i: Id, x: Item, t: StockType)
    requires i < |items|
    ensures Held(items[i := x], t) == Held(items, t) - items[i].stock.Get(t) + x.stock.Get(t)
  {
    var n := |items| - 1;
    if i == n {
      assert items[i := x][..n] == items[..n];
    } else {
      assert items[i := x][..n] == items[..n][i := x];
      HeldUpdate(items[..n], i, x, t);
    }
  }

  lemma HeldAppend(items: seq<Item>, x: Item, t: StockType)
    ensures Held(items + [x], t) == Held(items, t) + x.stock.Get(t)
  {
  }

  lemma BucketTotalAppend(stock: seq<Buckets>, x: Buckets, t: StockType)
    ensures BucketTotal(stock + [x], t) == BucketTotal(stock, t) + x.Get(t)
  {
  }

  // ---- The ledger invariant ----

  /** The three tables the ledger is about. */
  ghost predicate SameBooks(s: State, s2: State) {
    s2.items == s.items && s2.movements == s.movements && s2.opening == s.opening
  }

  ghost predicate Balanced(s: State) {
    && |s.opening| == |s.items|
    && (forall m | m in s.movements :: m.item < |s.items|)
    && forall i: Id, t: StockType | i < |s.items| :: BalancedAt(s, i, t)
  }

  ghost predicate BalancedAt(s: State, i: Id, t: StockType)
    requires i < |s.items| && i < |s.opening|
  {
    s.items[i].stock.Get(t) == s.opening[i].Get(t) + Moved(s.movements, i, t)
  }

  ghost predicate NonNegative(s: State) {
    forall i: Id, t: StockType | i < |s.items| :: s.items[i].stock.Get(t) >= 0
  }

  ghost predicate Sound(s: State) {
    Balanced(s) && NonNegative(s)
  }

  /** Total held is what items opened with plus what came in from, less what went to, the outside. */
  ghost predicate Conserved(s: State) {
    GrandTotal(s.items) == GrandOpening(s.opening) + ExternalFlow(s.movements)
  }

  lemma MoveKeepsBalance(s: State, item: Id, kind: MovementType, t: StockType, delta: int, origin: Origin)
    requires Balanced(s) && item < |s.items|
    ensures Balanced(Move(s, item, kind, t, delta, origin))
  {
    var s2 := Move(s, item, kind, t, delta, origin);
    forall i: Id, u: StockType | i < |s2.items|
      ensures BalancedAt(s2, i, u)
    {
      MovedAppend(s.movements, Movement(item, kind, t, delta, origin), i, u);
      assert BalancedAt(s, i, u);
    }
  }

  lemma MoveKeepsNonNegative(s: State, item: Id, kind: MovementType, t: StockType, delta: int, origin: Origin)
    requires NonNegative(s) && item < |s.items| && s.items[item].stock.Get(t) + delta >= 0
    ensures NonNegative(Move(s, item, kind, t, delta, origin))
  {
    var s2 := Move(s, item, kind, t, delta, origin);
    forall i: Id, u: StockType | i < |s2.items|
      ensures s2.items[i].stock.Get(u) >= 0
    {
      assert s.items[i].stock.Get(u) >= 0;
    }
  }

  lemma MoveKeepsSound(s: State, item: Id, kind: MovementType, t: StockType, delta: int, origin: Origin)
    requires Sound(s) && item < |s.items| && s.items[item].stock.Get(t) + delta >= 0
    ensures Sound(Move(s, item, kind, t, delta, origin))
  {
    MoveKeepsBalance(s, item, kind, t, delta, origin);
    MoveKeepsNonNegative(s, item, kind, t, delta, origin);
  }

  lemma MoveTotals(s: State, item: Id, kind: MovementType, t: StockType, delta: int, origin: Origin)
    requires item < |s.items|
    ensures var s2 := Move(s, item, kind, t, delta, origin);
            && (forall u :: Held(s2.items, u) == Held(s.items, u) + (if u == t then delta else 0))
            && ExternalFlow(s2.movements) == ExternalFlow(s.movements) + (if External(kind) then delta else 0)
            && s2.opening == s.opening
  {
    var s2 := Move(s, item, kind, t, delta, origin);
    forall u: StockType
      ensures Held(s2.items, u) == Held(s.items, u) + if u == t then delta else 0
    {
      HeldUpdate(s.items, item, s.items[item].Plus(t, delta), u);
    }
    ExternalFlowAppend(s.movements, Movement(item, kind, t, delta, origin));
  }

  lemma {:induction false} NothingMoved(log: seq<Movement>, item: Id, t: StockType)
    requires forall m | m in log :: m.item < item
    ensures Moved(log, item, t) == 0
  {
    if log != [] {
      NothingMoved(log[..|log| - 1], item, t);
    }
  }

  lemma NewItemKeepsBalance(s: State, x: Item)
    requires Balanced(s)
    ensures var s2 := s.(items := s.items + [x], opening := s.opening + [x.stock]);
            Balanced(s2) && (NonNegative(s) && (forall t: StockType :: x.stock.Get(t) >= 0) ==> NonNegative(s2))
  {
    var s2 := s.(items := s.items + [x], opening := s.opening + [x.stock]);
    forall i: Id, u: StockType | i < |s2.items|
      ensures BalancedAt(s2, i, u)
    {
      if i == |s.items| {
        NothingMoved(s.movements, i, u);
      } else {
        assert BalancedAt(s, i, u);
      }
    }
  }

  lemma NewItemKeepsConservation(s: State, x: Item)
    requires Conserved(s)
    ensures Conserved(s.(items := s.items + [x], opening := s.opening + [x.stock]))
  {
    forall t: StockType
      ensures Held(s.items + [x], t) == Held(s.items, t) + x.stock.Get(t)
      ensures BucketTotal(s.opening + [x.stock], t) == BucketTotal(s.opening, t) + x.stock.Get(t)
    {
      HeldAppend(s.items, x, t);
      BucketTotalAppend(s.opening, x.stock, t);
    }
  }

  /** Internal operations conserve: a reallocation keeps the item's total and every other item. */
  lemma ReallocationConserves(s: State, item: Id, from: StockType, to: StockType, quantity: int)
    requires ReallocateSpec(s, item, from, to, quantity).Ok?
    ensures var s2 := ReallocateSpec(s, item, from, to, quantity).value;
            && s2.items[item].stock.Total() == s.items[item].stock.Total()
            && (forall i: Id | i < |s.items| && i != item :: s2.items[i] == s.items[i])
            && GrandTotal(s2.items) == GrandTotal(s.items)
            && ExternalFlow(s2.movements) == ExternalFlow(s.movements)
            && s2.opening == s.opening
  {
    var s1 := Move(s, item, Allocated, from, -quantity, NoOrigin);
    MoveTotals(s, item, Allocated, from, -quantity, NoOrigin);
    MoveTotals(s1, item, Allocated, to, quantity, NoOrigin);
  }

  /** The tables after the source was debited and, if missing, the destination item created. */
  function Departed(s: State, id: Id): State
    requires id < |s.transfers| && s.transfers[id].fromItem < |s.items|
  {
    var transfer := s.transfers[id];
    var from := s.items[transfer.fromItem];
    var s1 := Move(s, transfer.fromItem, TransferOut, transfer.stockType, -(transfer.quantity as int),
                   FromTransfer(id));
    if FindItem(s.items, transfer.toBranch, from.name, from.category).Some? then s1
    else s1.(items :=
             s1.items + [Item(from.name, from.category, transfer.toBranch, EMPTY_BUCKETS, from.lowStockThreshold)],
             opening := s1.opening + [EMPTY_BUCKETS])
  }

  function Destination(s: State, id: Id): (to: Id)
    requires id < |s.transfers| && s.transfers[id].fromItem < |s.items|
    ensures to < |Departed(s, id).items|
  {
    var from := s.items[s.transfers[id].fromItem];
    var found := FindItem(s.items, s.transfers[id].toBranch, from.name, from.category);
    if found.Some? then found.value else |s.items|
  }

  lemma DepartureTotals(s: State, id: Id)
    requires id < |s.transfers| && s.transfers[id].fromItem < |s.items|
    ensures var s2, transfer := Departed(s, id), s.transfers[id];
            && (forall t ::
                  Held(s2.items, t)
                  == Held(s.items, t) - (if t == transfer.stockType then transfer.quantity as int else 0))
            && ExternalFlow(s2.movements) == ExternalFlow(s.movements)
            && GrandOpening(s2.opening) == GrandOpening(s.opening)
  {
    var transfer := s.transfers[id];
    var q := transfer.quantity as int;
    var s1 := Move(s, transfer.fromItem, TransferOut, transfer.stockType, -q, FromTransfer(id));
    MoveTotals(s, transfer.fromItem, TransferOut, transfer.stockType, -q, FromTransfer(id));
    var from := s.items[transfer.fromItem];
    EmptyItemTotals(s1, Item(from.name, from.category, transfer.toBranch, EMPTY_BUCKETS, from.lowStockThreshold));
  }

  lemma EmptyItemTotals(s: State, x: Item)
    requires x.stock == EMPTY_BUCKETS
    ensures forall t :: Held(s.items + [x], t) == Held(s.items, t)
    ensures GrandOpening(s.opening + [x.stock]) == GrandOpening(s.opening)
  {
  }

  /** What a transfer writes to the books, in two moves. */
  lemma ExecutionBooks(s: State, id: Id)
    requires id < |s.transfers| && s.transfers[id].fromItem < |s.items|
    ensures var transfer := s.transfers[id];
            SameBooks(Move(Departed(s, id), Destination(s, id), TransferIn, transfer.stockType, transfer.quantity,
                           FromTransfer(id)),
                      ExecuteTransfer(s, id))
  {
  }

  /** A transfer keeps the total of every bucket over all items, whether or not it creates the destination. */
  lemma TransferConserves(s: State, id: Id)
    requires id < |s.transfers| && s.transfers[id].fromItem < |s.items|
    ensures var s2 := ExecuteTransfer(s, id);
            && (forall t :: Held(s2.items, t) == Held(s.items, t))
            && ExternalFlow(s2.movements) == ExternalFlow(s.movements)
            && GrandOpening(s2.opening) == GrandOpening(s.opening)
  {
    var transfer := s.transfers[id];
    DepartureTotals(s, id);
    MoveTotals(Departed(s, id), Destination(s, id), TransferIn, transfer.stockType, transfer.quantity,
               FromTransfer(id));
    ExecutionBooks(s, id);
  }

  lemma SameSoundness(s: State, s2: State)
    requires Sound(s) && SameBooks(s, s2)
    ensures Sound(s2)
  {
    forall i: Id, t: StockType | i < |s2.items|
      ensures BalancedAt(s2, i, t) && s2.items[i].stock.Get(t) >= 0
    {
      assert BalancedAt(s, i, t);
    }
  }

  lemma DepartureKeepsSound(s: State, id: Id)
    requires Sound(s)
    requires id < |s.transfers| && s.transfers[id].fromItem < |s.items|
    requires s.items[s.transfers[id].fromItem].stock.Get(s.transfers[id].stockType) >= s.transfers[id].quantity
    ensures Sound(Departed(s, id))
  {
    var transfer := s.transfers[id];
    var q := transfer.quantity as int;
    var s1 := Move(s, transfer.fromItem, TransferOut, transfer.stockType, -q, FromTransfer(id));
    MoveKeepsSound(s, transfer.fromItem, TransferOut, transfer.stockType, -q, FromTransfer(id));
    var from := s.items[transfer.fromItem];
    NewItemKeepsBalance(s1, Item(from.name, from.category, transfer.toBranch, EMPTY_BUCKETS, from.lowStockThreshold));
  }

  lemma TransferKeepsSound(s: State, id: Id)
    requires Sound(s)
    requires id < |s.transfers| && s.transfers[id].fromItem < |s.items|
    requires s.items[s.transfers[id].fromItem].stock.Get(s.transfers[id].stockType) >= s.transfers[id].quantity
    ensures Sound(ExecuteTransfer(s, id))
  {
    var transfer := s.transfers[id];
    var m, to := Departed(s, id), Destination(s, id);
    DepartureKeepsSound(s, id);
    assert m.items[to].stock.Get(transfer.stockType) >= 0;
    MoveKeepsSound(m, to, TransferIn, transfer.stockType, transfer.quantity, FromTransfer(id));
    ExecutionBooks(s, id);
    SameSoundness(Move(m, to, TransferIn, transfer.stockType, transfer.quantity, FromTransfer(id)),
                  ExecuteTransfer(s, id));
  }

  ghost predicate LedgerInvariant(s: State) {
    Sound(s) && Conserved(s)
  }

  lemma SameLedger(s: State, s2: State)
    requires LedgerInvariant(s) && SameBooks(s, s2)
    ensures LedgerInvariant(s2)
  {
    SameSoundness(s, s2);
  }

  lemma ExternalMoveKeepsLedger(s: State, item: Id, kind: MovementType, t: StockType, delta: int, origin: Origin)
    requires LedgerInvariant(s) && item < |s.items| && External(kind)
    requires s.items[item].stock.Get(t) + delta >= 0
    ensures LedgerInvariant(Move(s, item, kind, t, delta, origin))
  {
    MoveKeepsSound(s, item, kind, t, delta, origin);
    MoveTotals(s, item, kind, t, delta, origin);
  }

  /** Either nothing, or the one adjustment movement, with stock to cover it. */
  ghost predicate AdjustmentBooks(s: State, id: Id, s2: State) {
    || SameBooks(s, s2)
    || (&& id < |s.adjustments|
        && var r := s.adjustments[id];
           && r.item < |s.items| && s.items[r.item].stock.Get(r.stockType) + r.delta >= 0
           && SameBooks(Move(s, r.item, Adjustment, r.stockType, r.delta, FromAdjustment(id)), s2))
  }

  lemma ApproveAdjustmentBooks(s: State, dir: A.Directory, id: Id, actor: Option<Id>, elevated: bool, writes: nat)
    ensures AdjustmentBooks(s, id, ApproveAdjustmentSpec(s, dir, id, actor, elevated, writes).state)
  {
  }

  lemma AdjustmentKeepsLedger(s: State, id: Id, s2: State)
    requires LedgerInvariant(s) && AdjustmentBooks(s, id, s2)
    ensures LedgerInvariant(s2)
  {
    if SameBooks(s, s2) {
      SameLedger(s, s2);
    } else {
      var r := s.adjustments[id];
      ExternalMoveKeepsLedger(s, r.item, Adjustment, r.stockType, r.delta, FromAdjustment(id));
      SameLedger(Move(s, r.item, Adjustment, r.stockType, r.delta, FromAdjustment(id)), s2);
    }
  }

  /** Either nothing, or the whole transfer, with stock to cover it. */
  ghost predicate TransferBooks(s: State, id: Id, s2: State) {
    || SameBooks(s, s2)
    || (&& id < |s.transfers|
        && var t := s.transfers[id];
           && t.fromItem < |s.items| && s.items[t.fromItem].stock.Get(t.stockType) >= t.quantity
           && SameBooks(ExecuteTransfer(s, id), s2))
  }

  lemma ApproveTransferBooks(s: State, dir: A.Directory, id: Id, actor: Option<Id>, elevated: bool, writes: nat)
    ensures TransferBooks(s, id, ApproveTransferSpec(s, dir, id, actor, elevated, writes).state)
  {
  }

  lemma TransferKeepsLedger(s: State, id: Id, s2: State)
    requires LedgerInvariant(s) && TransferBooks(s, id, s2)
    ensures LedgerInvariant(s2)
  {
    if SameBooks(s, s2) {
      SameLedger(s, s2);
    } else {
      TransferKeepsSound(s, id);
      TransferConserves(s, id);
      SameLedger(ExecuteTransfer(s, id), s2);
    }
  }

  lemma ReallocationKeepsLedger(s: State, item: Id, from: StockType, dest: StockType, amount: int)
    requires LedgerInvariant(s)
    ensures LedgerInvariant(OrUnchanged(s, ReallocateSpec(s, item, from, dest, amount)))
  {
    if ReallocateSpec(s, item, from, dest, amount).Ok? {
      var s1 := Move(s, item, Allocated, from, -amount, NoOrigin);
      MoveKeepsSound(s, item, Allocated, from, -amount, NoOrigin);
      assert s1.items[item].stock.Get(dest) >= 0;
      MoveKeepsSound(s1, item, Allocated, dest, amount, NoOrigin);
      ReallocationConserves(s, item, from, dest, amount);
    }
  }

  lemma CreateItemKeepsLedger(s: State, name: string, category: Category, branch: Id, initial: nat, priced: bool,
                              threshold: int, product: Option<bool>)
    requires LedgerInvariant(s)
    ensures LedgerInvariant(OrUnchanged(
              s, CreateItemSpec(s, name, category, branch, initial, priced, threshold, product)))
  {
    var x := Item(name, category, branch, Buckets(initial, 0, 0), threshold);
    NewItemKeepsBalance(s, x);
    NewItemKeepsConservation(s, x);
  }

  lemma ReceiveKeepsLedger(s: State, item: Id, quantity: Quantity)
    requires LedgerInvariant(s)
    ensures LedgerInvariant(OrUnchanged(s, ReceiveSpec(s, item, quantity)))
  {
    if item < |s.items| {
      assert s.items[item].stock.Get(Store) >= 0;
      ExternalMoveKeepsLedger(s, item, Received, Store, quantity, NoOrigin);
    }
  }

  lemma DeductKeepsLedger(s: State, item: Id, t: StockType, quantity: Quantity, sale: Option<Id>)
    requires LedgerInvariant(s)
    ensures LedgerInvariant(OrUnchanged(s, DeductSpec(s, item, t, quantity, sale)))
  {
    if DeductSpec(s, item, t, quantity, sale).Ok? {
      ExternalMoveKeepsLedger(s, item, Sold, t, -(quantity as int), FromSale(sale));
    }
  }

  /** Requests, refusals, hand-offs and chain edits never touch the books. */
  lemma WorkflowKeepsBooks(s: State, c: Call)
    requires c.op.RejectAdjustment? || c.op.ReassignAdjustment? || c.op.RequestTransfer? || c.op.RejectTransfer?
             || c.op.ReassignTransfer? || c.op.SetChain? || c.op.DeleteRole?
    ensures SameBooks(s, Step(s, c))
  {
  }

  lemma RequestAdjustmentKeepsLedger(s: State, dir: A.Directory, item: Id, t: StockType, delta: int, staff: Option<Id>,
                                     elevated: bool, writes: nat)
    requires LedgerInvariant(s)
    ensures LedgerInvariant(RequestAdjustmentSpec(s, dir, item, t, delta, staff, elevated, writes).state)
  {
    var s2 := RequestAdjustmentSpec(s, dir, item, t, delta, staff, elevated, writes).state;
    if elevated && item < |s.items| && writes >= 3 {
      var request := AdjustmentRequest(item, t, delta, |s.approvals.requests|, A.Pending);
      var s3 := s.(approvals :=
                   A.CreateSpec(s.approvals, dir, A.InventoryAdjustment, Some(s.items[item].branch), staff, None),
                   adjustments := s.adjustments + [request]);
      SameLedger(s, s3);
      ApproveAdjustmentBooks(s3, dir, |s.adjustments|, staff, true, writes - 3);
      AdjustmentKeepsLedger(s3, |s.adjustments|, s2);
    } else {
      SameLedger(s, s2);
    }
  }

  lemma StepKeepsLedger(s: State, c: Call)
    requires LedgerInvariant(s)
    ensures LedgerInvariant(Step(s, c))
  {
    match c.op
    case CreateItem(name, category, branch, initial, priced, threshold, product) =>
      CreateItemKeepsLedger(s, name, category, branch, initial, priced, threshold, product);
    case Receive(item, quantity) => ReceiveKeepsLedger(s, item, quantity);
    case Reallocate(item, from, dest, amount) => ReallocationKeepsLedger(s, item, from, dest, amount);
    case Deduct(item, t, quantity, sale) => DeductKeepsLedger(s, item, t, quantity, sale);
    case RequestAdjustment(item, t, delta, staff, elevated, writes) =>
      RequestAdjustmentKeepsLedger(s, c.dir, item, t, delta, staff, elevated, writes);
    case ApproveAdjustment(id, actor, elevated, writes) =>
      ApproveAdjustmentBooks(s, c.dir, id, actor, elevated, writes);
      AdjustmentKeepsLedger(s, id, Step(s, c));
    case ApproveTransfer(id, actor, elevated, writes) =>
      ApproveTransferBooks(s, c.dir, id, actor, elevated, writes);
      TransferKeepsLedger(s, id, Step(s, c));
    case _ =>
      WorkflowKeepsBooks(s, c);
      SameLedger(s, Step(s, c));
  }

  lemma {:induction false} LedgerOverRuns(s: State, calls: seq<Call>)
    requires LedgerInvariant(s)
    ensures LedgerInvariant(Run(s, calls))
    decreases |calls|
  {
    if calls != [] {
      StepKeepsLedger(s, calls[0]);
      LedgerOverRuns(Step(s, calls[0]), calls[1..]);
    }
  }

  /**
   * From empty tables, whatever calls are made and wherever they stop: every bucket is
   * non-negative and equals its opening quantity plus its movements, and the total over
   * all items changes only by goods received, sales and adjustments.
   */
  lemma LedgerFromEmpty(calls: seq<Call>)
    ensures var s := Run(EMPTY, calls);
            && |s.opening| == |s.items|
            && (forall i: Id, t: StockType | i < |s.items| ::
                  s.items[i].stock.Get(t) == s.opening[i].Get(t) + Moved(s.movements, i, t) >= 0)
            && GrandTotal(s.items) == GrandOpening(s.opening) + ExternalFlow(s.movements)
  {
    LedgerOverRuns(EMPTY, calls);
    var s := Run(EMPTY, calls);
    forall i: Id, t: StockType | i < |s.items|
      ensures s.items[i].stock.Get(t) == s.opening[i].Get(t) + Moved(s.movements, i, t) >= 0
    {
      assert BalancedAt(s, i, t);
    }
  }
}

/** Runs from empty tables: stock moved before its approval is final, moved twice, and stuck for ever. */
module ExecutionExample {
  import opened Base
  import A = Approval
  import opened Stock
  import opened StockRuns
  import opened ExecutionRuns
  import opened TransferRuns

  const NOBODY := A.Directory(map[], map[], {}, None)

  const CHAINS: map<A.RequestType, A.Chain> := map[A.InventoryAdjustment := map[1 := 1, 2 := 2]]

  const SHAMPOO := Item("Shampoo", InternalUse, 0, Buckets(10, 0, 0), 5)

  const WRITE_OFF := AdjustmentRequest(0, Store, -3, 0, A.Pending)

  const AT_STAGE_ONE := A.Request(A.InventoryAdjustment, Some(0), Some(0), None, Some(1), Some(1), A.Pending)

  const SUBMITTED := A.Action(0, Some(0), A.Submitted, None, None, "")

  const APPROVED_ONCE := A.Action(0, None, A.Approval, None, None, "")

  const CONFIGURED := State([], [], [], [], A.State([], [], CHAINS), [])

  const STOCKED := CONFIGURED.(items := [SHAMPOO], opening := [Buckets(10, 0, 0)])

  const REQUESTED := STOCKED.(adjustments := [WRITE_OFF], approvals := A.State([AT_STAGE_ONE], [SUBMITTED], CHAINS))

  /** The approval has moved to its second stage; the write-off is done. */
  const EXECUTED := State(
    [SHAMPOO.(stock := Buckets(7, 0, 0))], [Movement(0, Adjustment, Store, -3, FromAdjustment(0))],
    [WRITE_OFF.(status := A.Approved)], [],
    A.State([AT_STAGE_ONE.(stageOrder := Some(2), stageRole := Some(2))], [SUBMITTED, APPROVED_ONCE], CHAINS),
    [Buckets(10, 0, 0)])

  /** Two stages are configured; an administrator approves a write-off once. */
  const CALLS: seq<Call> := [
    Call(NOBODY, SetChain(A.InventoryAdjustment, [1, 2])),
    Call(NOBODY, CreateItem("Shampoo", InternalUse, 0, 10, false, 5, None)),
    Call(NOBODY, RequestAdjustment(0, Store, -3, Some(0), false, ALL_WRITES)),
    Call(NOBODY, ApproveAdjustment(0, None, true, ALL_WRITES))]

  lemma ChainSet()
    ensures Step(EMPTY, CALLS[0]) == CONFIGURED
  {
    assert A.StagesFor([1, 2]) == map[1 := 1, 2 := 2];
  }

  lemma ItemCreated()
    ensures Step(CONFIGURED, CALLS[1]) == STOCKED
  {
  }

  lemma AdjustmentRequested()
    ensures Step(STOCKED, CALLS[2]) == REQUESTED
  {
    var chain: A.Chain := map[1 := 1, 2 := 2];
    assert 1 in chain && A.FirstStage(chain) == Some(1);
    hide A.FirstStage, ApproveAdjustmentSpec;
  }

  lemma ApprovedOnce()
    ensures Step(REQUESTED, CALLS[3]) == EXECUTED
  {
    var chain: A.Chain := map[1 := 1, 2 := 2];
    assert 2 in chain && A.NextStage(chain, 1) == Some(2);
    hide A.NextStage;
  }

  lemma RunFour(s0: State, s1: State, s2: State, s3: State, s4: State, calls: seq<Call>)
    requires |calls| == 4
    requires Step(s0, calls[0]) == s1 && Step(s1, calls[1]) == s2 && Step(s2, calls[2]) == s3
               && Step(s3, calls[3]) == s4
    ensures Run(s0, calls) == s4
  {
    hide Step;
    assert calls[1..][1..] == calls[2..] && calls[2..][1..] == calls[3..] && calls[3..][1..] == [];
    assert Run(s3, calls[3..]) == Run(s4, []);
    assert Run(s2, calls[2..]) == Run(s3, calls[3..]);
    assert Run(s1, calls[1..]) == Run(s2, calls[2..]);
  }

  /** After one of two approvals the write-off is APPROVED and its stock gone, while the approval waits at stage 2. */
  lemma StockMovesBeforeTheLastStage()
    ensures Run(EMPTY, CALLS) == EXECUTED
    ensures EXECUTED.adjustments[0].status == A.Approved && Applied(EXECUTED.movements, 0) == 1
    ensures EXECUTED.approvals.requests[0].Open() && EXECUTED.approvals.requests[0].stageOrder == Some(2)
  {
    ChainSet();
    ItemCreated();
    AdjustmentRequested();
    ApprovedOnce();
    hide Step;
    RunFour(EMPTY, CONFIGURED, STOCKED, REQUESTED, EXECUTED, CALLS);
  }

  // ---- One write-off, two movements ----

  const MOVED_ONCE := EXECUTED.(adjustments := [WRITE_OFF])

  const DECIDED_ROW := A.Request(A.InventoryAdjustment, Some(0), Some(0), None, None, None, A.Approved)

  const MOVED_TWICE := State(
    [SHAMPOO.(stock := Buckets(4, 0, 0))],
    [Movement(0, Adjustment, Store, -3, FromAdjustment(0)), Movement(0, Adjustment, Store, -3, FromAdjustment(0))],
    [WRITE_OFF], [], A.State([DECIDED_ROW], [SUBMITTED, APPROVED_ONCE, APPROVED_ONCE], CHAINS), [Buckets(10, 0, 0)])

  /** Each of the two approvals stops after the movement. */
  const STOPPED_TWICE: seq<Call> := [StoppedApproval(NOBODY, 0), StoppedApproval(NOBODY, 0)]

  lemma StoppedOnce()
    ensures Step(REQUESTED, StoppedApproval(NOBODY, 0)) == MOVED_ONCE
  {
    var chain: A.Chain := map[1 := 1, 2 := 2];
    assert 2 in chain && A.NextStage(chain, 1) == Some(2);
    hide A.NextStage;
  }

  lemma StoppedAgain()
    ensures Step(MOVED_ONCE, StoppedApproval(NOBODY, 0)) == MOVED_TWICE
  {
    var chain: A.Chain := map[1 := 1, 2 := 2];
    assert A.NextStage(chain, 2) == None;
    hide A.NextStage;
  }

  /** The first three calls, then two stopped approvals: stock moved twice, and the write-off is PENDING for good. */
  lemma StockMovesTwice()
    ensures Run(Run(EMPTY, CALLS[..3]), STOPPED_TWICE) == MOVED_TWICE
    ensures Applied(MOVED_TWICE.movements, 0) == 2
    ensures MOVED_TWICE.adjustments[0].status == A.Pending && !Row(MOVED_TWICE, 0).Open()
  {
    var log := MOVED_TWICE.movements;
    assert Applied(log, 0) == 2 by { assert log[..1] == [log[0]] && [log[0]][..0] == []; }
    ChainSet();
    ItemCreated();
    AdjustmentRequested();
    StoppedOnce();
    StoppedAgain();
    hide Step, StoppedApproval;
    RunThree(EMPTY, CALLS[..3]);
    RunTwo(REQUESTED, STOPPED_TWICE);
  }

  lemma RunTwo(s: State, calls: seq<Call>)
    requires |calls| == 2
    ensures Run(s, calls) == Step(Step(s, calls[0]), calls[1])
  {
    hide Step;
    assert calls[1..][1..] == [];
    assert Run(Step(s, calls[0]), calls[1..]) == Run(Step(Step(s, calls[0]), calls[1]), []);
  }

  lemma RunThree(s: State, calls: seq<Call>)
    requires |calls| == 3
    ensures Run(s, calls) == Step(Step(Step(s, calls[0]), calls[1]), calls[2])
  {
    hide Step;
    RunTwo(Step(s, calls[0]), calls[1..]);
  }

  // ---- Stock sold between a transfer's request and its approval ----

  const TRANSFER := Transfer(0, 1, Store, 8, Some(0), TransferPending)

  const TRANSFER_ROW := A.Request(A.StockTransfer, Some(0), Some(0), None, None, None, A.Pending)

  const STOCKED_ALONE := EMPTY.(items := [SHAMPOO], opening := [Buckets(10, 0, 0)])

  const TRANSFER_REQUESTED :=
    STOCKED_ALONE.(transfers := [TRANSFER], approvals := A.State([TRANSFER_ROW], [SUBMITTED], map[]))

  const SOLD_MEANWHILE :=
    TRANSFER_REQUESTED.(items := [SHAMPOO.(stock := Buckets(5, 0, 0))],
                        movements := [Movement(0, Sold, Store, -5, FromSale(None))])

  const STRANDED := SOLD_MEANWHILE.(
    approvals := A.State([TRANSFER_ROW.(status := A.Approved)], [SUBMITTED, APPROVED_ONCE], map[]))

  const TRANSFER_CALLS: seq<Call> := [
    Call(NOBODY, CreateItem("Shampoo", InternalUse, 0, 10, false, 5, None)),
    Call(NOBODY, RequestTransfer(0, 1, Store, 8, 0, ALL_WRITES)),
    Call(NOBODY, Deduct(0, Store, 5, None)),
    Call(NOBODY, ApproveTransfer(0, None, true, ALL_WRITES))]

  lemma TransferAsked()
    ensures Step(EMPTY, TRANSFER_CALLS[0]) == STOCKED_ALONE
    ensures Step(STOCKED_ALONE, TRANSFER_CALLS[1]) == TRANSFER_REQUESTED
  {
    hide A.FirstStage;
  }

  lemma SoldAndApproved()
    ensures Step(TRANSFER_REQUESTED, TRANSFER_CALLS[2]) == SOLD_MEANWHILE
    ensures Step(SOLD_MEANWHILE, TRANSFER_CALLS[3]) == STRANDED
  {
    hide ExecuteTransfer;
  }

  /** No call stops, and yet the transfer's approval is APPROVED while it can never be carried out or rejected. */
  lemma TransferStrandedReachable()
    ensures Run(EMPTY, TRANSFER_CALLS) == STRANDED && Stranded(STRANDED, 0)
  {
    TransferAsked();
    SoldAndApproved();
    hide Step;
    RunFour(EMPTY, STOCKED_ALONE, TRANSFER_REQUESTED, SOLD_MEANWHILE, STRANDED, TRANSFER_CALLS);
  }
}
